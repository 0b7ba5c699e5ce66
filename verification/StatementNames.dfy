/**
  Names of statement attachments, `statement-<language>[-<type>].<format>`, and the variants they
  stand for. The pattern is not anchored: it is looked for anywhere in the name.
*/
module StatementNames {
  import opened Common

  datatype Variant = Variant(language: string, kind: string, format: string)

  datatype Attachment = Attachment(id: int, name: string, isPrivate: bool, lastUpdatedAt: int)

  datatype StatementVariant = StatementVariant(
    variant: Variant, isPrivate: bool, attachmentName: string, lastUpdatedAt: int)

  predicate Letter(c: char) {
    'a' <= c <= 'z'
  }

  predicate Letters(s: string) {
    forall i | 0 <= i < |s| :: Letter(s[i])
  }

  /** What the pattern's groups can hold; the type may be missing. */
  predicate WellFormed(v: Variant) {
    Letters(v.language) && v.language != [] && Letters(v.kind) && Letters(v.format) && v.format != []
  }

  function FormatDescName(v: Variant): string {
    if v.kind == "" then "statement-" + v.language + "." + v.format
    else "statement-" + v.language + "-" + v.kind + "." + v.format
  }

  // ---- Matching ----

  /** How many letters follow: what a greedy `[a-z]+` takes. */
  function Run(s: string): (n: nat)
    ensures n <= |s| && Letters(s[..n]) && (n < |s| ==> !Letter(s[n]))
  {
    if s == [] || !Letter(s[0]) then 0
    else
      var n := Run(s[1..]);
      assert s[..n + 1] == [s[0]] + s[1..][..n];
      n + 1
  }

  datatype Match = Match(variant: Variant, length: nat)

  /** The last group, from its dot on. */
  function MatchFormat(s: string): Option<string> {
    if s == [] || s[0] != '.' || Run(s[1..]) == 0 then None else Some(s[1..][..Run(s[1..])])
  }

  /** The pattern after its fixed start. Runs end where letters do, so there is nothing to go back on. */
  function MatchBody(a: string): Option<Match> {
    var language := a[..Run(a)];
    var b := a[Run(a)..];
    if language == [] then None
    else if b != [] && b[0] == '-' then
      var kind := b[1..][..Run(b[1..])];
      var format := MatchFormat(b[1..][Run(b[1..])..]);
      if kind == [] || format.None? then None
      else Some(Match(Variant(language, kind, format.value), |language| + 1 + |kind| + 1 + |format.value|))
    else
      var format := MatchFormat(b);
      if format.None? then None
      else Some(Match(Variant(language, "", format.value), |language| + 1 + |format.value|))
  }

  const STATEMENT := "statement-"

  /** The pattern at the very start of `s`. */
  function MatchHere(s: string): Option<Match> {
    if !(STATEMENT <= s) then None
    else
      var m := MatchBody(s[|STATEMENT|..]);
      if m.None? then None else Some(Match(m.value.variant, |STATEMENT| + m.value.length))
  }

  /** FindStringSubmatch: the leftmost match, and where it starts. */
  function Find(s: string): Option<(Match, nat)> {
    var here := MatchHere(s);
    if here.Some? then Some((here.value, 0))
    else if s == [] then None
    else
      var later := Find(s[1..]);
      if later.None? then None else Some((later.value.0, later.value.1 + 1))
  }

  // ---- What a match is ----

  lemma {:induction false} RunOf(letters: string, rest: string)
    requires Letters(letters)
    ensures Run(letters + rest) >= |letters|
    ensures rest == [] || !Letter(rest[0]) ==> Run(letters + rest) == |letters|
  {
    if letters == [] {
      assert letters + rest == rest;
    } else {
      assert (letters + rest)[1..] == letters[1..] + rest;
      RunOf(letters[1..], rest);
    }
  }

  /** The name of a variant after its fixed start. */
  function Body(v: Variant): string {
    (if v.kind == "" then v.language else v.language + ("-" + v.kind)) + ("." + v.format)
  }

  lemma NameIsBody(v: Variant)
    ensures FormatDescName(v) == STATEMENT + Body(v)
  {
    if v.kind == "" {
      Regroup(STATEMENT, v.language, ".", v.format);
    } else {
      Regroup(STATEMENT, v.language, "-", v.kind);
      Regroup(STATEMENT, v.language + ("-" + v.kind), ".", v.format);
    }
  }

  lemma Regroup(a: string, b: string, c: string, d: string)
    ensures a + b + c + d == a + (b + (c + d))
  {
  }

  lemma MatchFormatIs(s: string)
    requires MatchFormat(s).Some?
    ensures
      var f := MatchFormat(s).value;
      f != [] && Letters(f) && 1 + |f| <= |s| && s[..1 + |f|] == "." + f
  {
  }

  lemma PlainBodyIsFormatted(a: string, b: string, language: string, format: string)
    requires a == language + b && 1 + |format| <= |b| && b[..1 + |format|] == "." + format
    ensures |language| + 1 + |format| <= |a|
    ensures a[..|language| + 1 + |format|] == Body(Variant(language, "", format))
  {
  }

  lemma TypedBodyIsFormatted(a: string, language: string, kind: string, d: string, format: string)
    requires a == language + ("-" + (kind + d)) && kind != []
    requires 1 + |format| <= |d| && d[..1 + |format|] == "." + format
    ensures |language| + 1 + |kind| + 1 + |format| <= |a|
    ensures a[..|language| + 1 + |kind| + 1 + |format|] == Body(Variant(language, kind, format))
  {
    assert a == language + ("-" + kind) + d;
    assert d == "." + format + d[1 + |format|..];
  }

  lemma RunSplits(s: string)
    ensures s == s[..Run(s)] + s[Run(s)..] && Letters(s[..Run(s)])
  {
    hide Run, Letters;
  }

  /** The match of a body with a type in it, and of one without. */
  lemma TypedMatch(a: string, b: string, c: string)
    requires MatchBody(a).Some? && b == a[Run(a)..] && b != [] && b[0] == '-' && c == b[1..]
    ensures a[..Run(a)] != [] && c[..Run(c)] != [] && MatchFormat(c[Run(c)..]).Some?
    ensures
      var (language, kind, format) := (a[..Run(a)], c[..Run(c)], MatchFormat(c[Run(c)..]).value);
      MatchBody(a).value == Match(Variant(language, kind, format), |language| + 1 + |kind| + 1 + |format|)
  {
    hide MatchFormat, Run;
  }

  lemma PlainMatch(a: string, b: string)
    requires MatchBody(a).Some? && b == a[Run(a)..] && !(b != [] && b[0] == '-')
    ensures a[..Run(a)] != [] && MatchFormat(b).Some?
    ensures
      var (language, format) := (a[..Run(a)], MatchFormat(b).value);
      MatchBody(a).value == Match(Variant(language, "", format), |language| + 1 + |format|)
  {
    hide MatchFormat, Run;
  }

  lemma DashAndRest(b: string)
    requires b != [] && b[0] == '-'
    ensures b == "-" + b[1..]
  {
  }

  lemma TypedMatchIsFormatted(a: string, language: string, b: string, m: Match)
    requires a == language + b && language == a[..Run(a)] && b == a[Run(a)..] && Letters(language)
    requires MatchBody(a) == Some(m) && b != [] && b[0] == '-'
    ensures m.length <= |a| && a[..m.length] == Body(m.variant) && WellFormed(m.variant)
  {
    hide MatchBody, MatchFormat, Body, Letters, Run;
    var c := b[1..];
    TypedMatch(a, b, c);
    RunSplits(c);
    DashAndRest(b);
    var d := c[Run(c)..];
    MatchFormatIs(d);
    TypedBodyIsFormatted(a, language, c[..Run(c)], d, MatchFormat(d).value);
  }

  lemma PlainMatchIsFormatted(a: string, language: string, b: string, m: Match)
    requires a == language + b && language == a[..Run(a)] && b == a[Run(a)..] && Letters(language)
    requires MatchBody(a) == Some(m) && !(b != [] && b[0] == '-')
    ensures m.length <= |a| && a[..m.length] == Body(m.variant) && WellFormed(m.variant)
  {
    hide MatchBody, MatchFormat, Body, Letters, Run;
    PlainMatch(a, b);
    NoLetters();
    MatchFormatIs(b);
    PlainBodyIsFormatted(a, b, language, MatchFormat(b).value);
  }

  lemma MatchBodyIsFormatted(a: string)
    requires MatchBody(a).Some?
    ensures
      var m := MatchBody(a).value;
      m.length <= |a| && a[..m.length] == Body(m.variant) && WellFormed(m.variant)
  {
    hide MatchBody, Body, WellFormed, Letters, Run;
    var language, b := a[..Run(a)], a[Run(a)..];
    RunSplits(a);
    if b != [] && b[0] == '-' {
      TypedMatchIsFormatted(a, language, b, MatchBody(a).value);
    } else {
      PlainMatchIsFormatted(a, language, b, MatchBody(a).value);
    }
  }

  lemma NoLetters()
    ensures Letters("")
  {
  }

  /** Formatting what was parsed gives back exactly the text that matched. */
  lemma MatchIsFormatted(s: string)
    requires MatchHere(s).Some?
    ensures
      var m := MatchHere(s).value;
      m.length <= |s| && s[..m.length] == FormatDescName(m.variant) && WellFormed(m.variant)
  {
    hide MatchBody, Body, FormatDescName, WellFormed;
    var a := s[|STATEMENT|..];
    MatchBodyIsFormatted(a);
    var m := MatchBody(a).value;
    NameIsBody(m.variant);
    Continue(STATEMENT, s, m.length);
  }

  lemma Continue(start: string, s: string, n: nat)
    requires start <= s && |start| + n <= |s|
    ensures s[..|start| + n] == start + s[|start|..][..n]
  {
  }

  lemma FormatMatches(format: string, rest: string)
    requires Letters(format) && format != []
    ensures
      var m := MatchFormat("." + format + rest);
      m.Some? && |m.value| >= |format| && (rest == [] || !Letter(rest[0]) ==> m == Some(format))
  {
    var tail := format + rest;
    assert ("." + format + rest)[1..] == tail;
    RunOf(format, rest);
    assert tail[..|format|] == format;
  }

  lemma PlainBody(language: string, tail: string)
    requires Letters(language) && language != [] && tail != [] && tail[0] == '.'
    ensures
      var format := MatchFormat(tail);
      format.Some? ==>
        MatchBody(language + tail) == Some(Match(Variant(language, "", format.value), |language| + 1 + |format.value|))
  {
    hide MatchFormat, Letters;
    RunOf(language, tail);
    var a := language + tail;
    assert a[..|language|] == language && a[|language|..] == tail;
  }

  lemma TypedBody(language: string, kind: string, tail: string)
    requires Letters(language) && language != [] && Letters(kind) && kind != [] && tail != [] && tail[0] == '.'
    ensures
      var format := MatchFormat(tail);
      format.Some? ==>
        MatchBody(language + ("-" + (kind + tail))) ==
        Some(Match(Variant(language, kind, format.value), |language| + 1 + |kind| + 1 + |format.value|))
  {
    hide MatchFormat, Letters, Run;
    var c := kind + tail;
    var a := language + ("-" + c);
    RunOf(language, "-" + c);
    RunOf(kind, tail);
    assert a[..|language|] == language && a[|language|..] == "-" + c && ("-" + c)[1..] == c;
    assert c[..|kind|] == kind && c[|kind|..] == tail;
  }

  lemma BodyMatches(v: Variant, rest: string)
    requires WellFormed(v)
    ensures
      var m := MatchBody(Body(v) + rest);
      && m.Some? && m.value.length >= |Body(v)|
      && (rest == [] || !Letter(rest[0]) ==> m == Some(Match(v, |Body(v)|)))
  {
    hide MatchFormat, MatchBody, Letters;
    var tail := "." + v.format + rest;
    FormatMatches(v.format, rest);
    if v.kind == "" {
      PlainBody(v.language, tail);
      assert Body(v) + rest == v.language + tail;
    } else {
      TypedBody(v.language, v.kind, tail);
      assert Body(v) + rest == v.language + ("-" + (v.kind + tail));
    }
  }

  /** A formatted variant followed by anything matches, with the same variant up to further letters of the format. */
  lemma FormattedMatches(v: Variant, rest: string)
    requires WellFormed(v)
    ensures
      var m := MatchHere(FormatDescName(v) + rest);
      && m.Some? && m.value.length >= |FormatDescName(v)|
      && (rest == [] || !Letter(rest[0]) ==> m == Some(Match(v, |FormatDescName(v)|)))
  {
    hide MatchBody, Body, FormatDescName, WellFormed;
    NameIsBody(v);
    BodyMatches(v, rest);
    AfterStart(STATEMENT, Body(v), rest);
  }

  lemma AfterStart(start: string, body: string, rest: string)
    ensures start <= start + body + rest && (start + body + rest)[|start|..] == body + rest
  {
  }

  /** Parsing a formatted name gives the variant back. */
  lemma ParseFormat(v: Variant)
    requires WellFormed(v)
    ensures Find(FormatDescName(v)) == Some((Match(v, |FormatDescName(v)|), 0))
  {
    FormattedMatches(v, []);
    assert FormatDescName(v) + [] == FormatDescName(v);
  }

  /** Some part of the name, from `i` to `j`, is a formatted variant. */
  ghost predicate Occurs(s: string, v: Variant, i: nat, j: nat) {
    i <= j <= |s| && WellFormed(v) && s[i..j] == FormatDescName(v)
  }

  /** The match is an occurrence: the leftmost, and the longest that starts there. */
  lemma {:induction false} FindIsLeftmost(s: string)
    requires Find(s).Some?
    ensures
      var (m, at) := Find(s).value;
      && Occurs(s, m.variant, at, at + m.length)
      && (forall v, i: nat, j: nat | Occurs(s, v, i, j) :: at <= i && (i == at ==> j <= at + m.length))
  {
    hide MatchHere, Occurs;
    var (m, at) := Find(s).value;
    if MatchHere(s).Some? {
      MatchIsFormatted(s);
      assert Occurs(s, m.variant, 0, m.length) by { OccursAtStart(s, m); }
      forall v, i: nat, j: nat | Occurs(s, v, i, j) ensures i == 0 ==> j <= m.length {
        OccurrenceMatches(s, v, i, j);
      }
    } else {
      FindIsLeftmost(s[1..]);
      assert Occurs(s, m.variant, at, at + m.length) by { OccursLater(s, m.variant, at, at + m.length); }
      forall v, i: nat, j: nat | Occurs(s, v, i, j) ensures at <= i && (i == at ==> j <= at + m.length) {
        OccurrenceMatches(s, v, i, j);
        OccursLater(s, v, i, j);
        assert Occurs(s[1..], v, i - 1, j - 1);
      }
    }
  }

  lemma OccursAtStart(s: string, m: Match)
    requires m.length <= |s| && s[..m.length] == FormatDescName(m.variant) && WellFormed(m.variant)
    ensures Occurs(s, m.variant, 0, m.length)
  {
    hide WellFormed, FormatDescName;
    assert s[0..m.length] == s[..m.length];
  }

  /** Occurring after the first character is occurring in the rest. */
  lemma OccursLater(s: string, v: Variant, i: nat, j: nat)
    requires s != [] && 0 < i && 0 < j
    ensures Occurs(s, v, i, j) <==> Occurs(s[1..], v, i - 1, j - 1)
  {
    hide WellFormed, FormatDescName;
    if i <= j <= |s| {
      assert s[1..][i - 1..j - 1] == s[i..j];
    }
  }

  lemma OccurrenceMatches(s: string, v: Variant, i: nat, j: nat)
    requires Occurs(s, v, i, j)
    ensures i == 0 ==> MatchHere(s).Some? && MatchHere(s).value.length >= j
    ensures j > i
  {
    hide MatchHere, FormatDescName, WellFormed;
    NameNotEmpty(v);
    FormattedMatches(v, s[j..]);
    if i == 0 {
      assert s == s[0..j] + s[j..];
    }
  }

  lemma NameNotEmpty(v: Variant)
    ensures |FormatDescName(v)| > 0
  {
  }

  /** A name is accepted exactly when a formatted variant occurs in it. */
  lemma {:induction false} FindIffOccurs(s: string)
    ensures Find(s).Some? <==> exists v, i: nat, j: nat :: Occurs(s, v, i, j)
  {
    hide MatchHere;
    if Find(s).Some? {
      FindIsLeftmost(s);
    } else {
      forall v, i: nat, j: nat ensures !Occurs(s, v, i, j) {
        NoneOccurs(s, v, i, j);
      }
    }
  }

  lemma {:induction false} NoneOccurs(s: string, v: Variant, i: nat, j: nat)
    requires Find(s).None?
    ensures !Occurs(s, v, i, j)
  {
    hide MatchHere, WellFormed, FormatDescName;
    if Occurs(s, v, i, j) {
      OccurrenceMatches(s, v, i, j);
      assert s[1..][i - 1..j - 1] == s[i..j];
      NoneOccurs(s[1..], v, i - 1, j - 1);
    }
  }

  /** The formatted variant is the attachment's own name exactly when the whole name matched. */
  lemma FormatsBackIffWhole(s: string)
    requires Find(s).Some?
    ensures
      var (m, at) := Find(s).value;
      && at + m.length <= |s| && s[at..at + m.length] == FormatDescName(m.variant)
      && (FormatDescName(m.variant) == s <==> at == 0 && m.length == |s|)
  {
    hide Find, FormatDescName, WellFormed;
    FindIsLeftmost(s);
    var (m, at) := Find(s).value;
    if FormatDescName(m.variant) == s {
      ParseFormat(m.variant);
    }
    assert at == 0 && m.length == |s| ==> s[at..at + m.length] == s;
  }

  /** A statement that would be looked up under a name that is not its own. */
  lemma LookedUpElsewhere()
    ensures Find("old-statement-en.md").Some?
    ensures FormatDescName(Find("old-statement-en.md").value.0.variant) != "old-statement-en.md"
  {
    hide Find;
    var s, v := "old-statement-en.md", Variant("en", "", "md");
    assert s[4..19] == FormatDescName(v);
    assert Occurs(s, v, 4, 19);
    FindIffOccurs(s);
    FindIsLeftmost(s);
    FormatsBackIffWhole(s);
    StartsWithStatement(Find(s).value.0.variant);
  }

  lemma StartsWithStatement(v: Variant)
    ensures FormatDescName(v) != [] && FormatDescName(v)[0] == 's'
  {
  }

  // ---- The code ----

  function VariantsOf(atts: seq<Attachment>, getPrivate: bool): seq<StatementVariant> {
    if atts == [] then [] else VariantOf(atts[0], getPrivate) + VariantsOf(atts[1..], getPrivate)
  }

  /** What the loop makes of one attachment. */
  function VariantOf(a: Attachment, getPrivate: bool): seq<StatementVariant> {
    var m := Find(a.name);
    if m.None? || (a.isPrivate && !getPrivate) then []
    else [StatementVariant(m.value.0.variant, a.isPrivate, a.name, a.lastUpdatedAt)]
  }

  lemma FirstVariant(atts: seq<Attachment>, k: nat, getPrivate: bool)
    requires k < |atts|
    ensures VariantsOf(atts[k..], getPrivate) == VariantOf(atts[k], getPrivate) + VariantsOf(atts[k + 1..], getPrivate)
  {
    hide Find, VariantOf;
    assert atts[k..][0] == atts[k] && atts[k..][1..] == atts[k + 1..];
  }

  lemma NextVariants(atts: seq<Attachment>, k: nat, getPrivate: bool, before: seq<StatementVariant>)
    requires k < |atts|
    ensures before + VariantsOf(atts[k..], getPrivate) ==
      before + VariantOf(atts[k], getPrivate) + VariantsOf(atts[k + 1..], getPrivate)
  {
    hide VariantOf, VariantsOf;
    FirstVariant(atts, k, getPrivate);
  }

  lemma NoMoreVariants(atts: seq<Attachment>, getPrivate: bool)
    ensures VariantsOf(atts[|atts|..], getPrivate) == []
    ensures VariantsOf(atts[0..], getPrivate) == VariantsOf(atts, getPrivate)
  {
    assert atts[0..] == atts;
  }

  /** The attachment's name holds a variant, and its statement may be shown. */
  predicate Accepted(a: Attachment, getPrivate: bool) {
    Find(a.name).Some? && (a.isPrivate ==> getPrivate)
  }

  /** The entry is the attachment's own: the variant in its name, whether it is private, its name and its time. */
  predicate EntryFor(v: StatementVariant, a: Attachment) {
    && Find(a.name).Some? && v.variant == Find(a.name).value.0.variant
    && v.isPrivate == a.isPrivate && v.attachmentName == a.name && v.lastUpdatedAt == a.lastUpdatedAt
  }

  /** The entries are those of the attachments at these positions, which are the accepted ones from `from` on. */
  ghost predicate Lists(atts: seq<Attachment>, from: nat, getPrivate: bool, variants: seq<StatementVariant>,
      at: seq<int>) {
    && |at| == |variants|
    && (forall i, j | 0 <= i < j < |at| :: at[i] < at[j])
    && (forall k | 0 <= k < |at| ::
          from <= at[k] < |atts| && Accepted(atts[at[k]], getPrivate) && EntryFor(variants[k], atts[at[k]]))
    && (forall i | from <= i < |atts| && i !in at :: !Accepted(atts[i], getPrivate))
  }

  lemma {:induction false} VariantsList(atts: seq<Attachment>, from: nat, getPrivate: bool) returns (at: seq<int>)
    requires from <= |atts|
    ensures Lists(atts, from, getPrivate, VariantsOf(atts[from..], getPrivate), at)
    decreases |atts| - from
  {
    hide Find, VariantsOf, VariantOf, EntryFor, Accepted, Lists;
    if from == |atts| {
      NoMoreVariants(atts, getPrivate);
      at := [];
      NothingListed(atts, getPrivate);
    } else {
      at := VariantsList(atts, from + 1, getPrivate);
      var rest := VariantsOf(atts[from + 1..], getPrivate);
      FirstVariant(atts, from, getPrivate);
      VariantIsEntry(atts[from], getPrivate);
      var own := VariantOf(atts[from], getPrivate);
      assert VariantsOf(atts[from..], getPrivate) == own + rest;
      if own != [] {
        OneMoreListed(atts, from, getPrivate, rest, at, own[0]);
        assert own == [own[0]];
        at := [from] + at;
      } else {
        NoMoreListed(atts, from, getPrivate, rest, at);
        assert own + rest == rest;
      }
    }
  }

  lemma VariantIsEntry(a: Attachment, getPrivate: bool)
    ensures
      var own := VariantOf(a, getPrivate);
      if Accepted(a, getPrivate) then |own| == 1 && EntryFor(own[0], a) else own == []
  {
    hide Find;
  }

  lemma NothingListed(atts: seq<Attachment>, getPrivate: bool)
    ensures Lists(atts, |atts|, getPrivate, [], [])
  {
  }

  lemma OneMoreListed(atts: seq<Attachment>, from: nat, getPrivate: bool, rest: seq<StatementVariant>, at: seq<int>,
      v: StatementVariant)
    requires from < |atts| && Lists(atts, from + 1, getPrivate, rest, at)
    requires Accepted(atts[from], getPrivate) && EntryFor(v, atts[from])
    ensures Lists(atts, from, getPrivate, [v] + rest, [from] + at)
  {
    hide EntryFor, Accepted;
    var more, variants := [from] + at, [v] + rest;
    forall i, j | 0 <= i < j < |more| ensures more[i] < more[j] {
      assert more[j] == at[j - 1] && (i > 0 ==> more[i] == at[i - 1]);
    }
    forall k | 0 <= k < |more|
      ensures from <= more[k] < |atts| && Accepted(atts[more[k]], getPrivate) && EntryFor(variants[k], atts[more[k]])
    {
      assert k > 0 ==> more[k] == at[k - 1] && variants[k] == rest[k - 1];
    }
    forall i | from <= i < |atts| && i !in more ensures !Accepted(atts[i], getPrivate) {
      assert more[0] == from && i !in at;
    }
  }

  lemma NoMoreListed(atts: seq<Attachment>, from: nat, getPrivate: bool, rest: seq<StatementVariant>, at: seq<int>)
    requires from < |atts| && Lists(atts, from + 1, getPrivate, rest, at) && !Accepted(atts[from], getPrivate)
    ensures Lists(atts, from, getPrivate, rest, at)
  {
    hide EntryFor, Accepted;
  }

  method ParseVariants(atts: seq<Attachment>, getPrivate: bool) returns (variants: seq<StatementVariant>)
    ensures variants == VariantsOf(atts, getPrivate)
    ensures forall v | v in variants :: v.isPrivate ==> getPrivate
    ensures exists at :: Lists(atts, 0, getPrivate, variants, at)
  {
    hide Find, VariantsOf, Lists;
    variants := [];
    NoMoreVariants(atts, getPrivate);
    for k := 0 to |atts|
      invariant variants + VariantsOf(atts[k..], getPrivate) == VariantsOf(atts, getPrivate)
      invariant forall v | v in variants :: v.isPrivate ==> getPrivate
    {
      NextVariants(atts, k, getPrivate, variants);
      assert variants + [] == variants;
      var m := Find(atts[k].name);
      if m.None? {
        continue;
      }
      if atts[k].isPrivate && !getPrivate {
        continue;
      }
      variants := variants
        + [StatementVariant(m.value.0.variant, atts[k].isPrivate, atts[k].name, atts[k].lastUpdatedAt)];
    }
    ghost var at := VariantsList(atts, 0, getPrivate);
  }
}
