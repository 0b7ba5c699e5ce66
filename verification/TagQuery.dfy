/**
  The tag filter of the problem list, written `!1,2_3`: not tag 1, and one of tags 2 and 3.
  What cannot be read is skipped, tags that do not exist are dropped, and groups left empty too.
*/
module TagQuery {
  import opened Common
  import opened Ordering
  import opened Strconv

  datatype TagGroup = TagGroup(negate: bool, tagIds: seq<int>)

  // ---- Splitting ----

  /** strings.Split(s, sep) for a one-character separator */
  function Split(s: string, sep: char): (parts: seq<string>)
    ensures parts != []
  {
    if s == [] then [[]]
    else
      var rest := Split(s[1..], sep);
      if s[0] == sep then [[]] + rest else [[s[0]] + rest[0]] + rest[1..]
  }

  // ---- Reading the query ----

  function TagIds(tags: seq<string>): seq<int> {
    if tags == [] then []
    else
      var id := Atoi(tags[0]);
      (if id.Some? then [id.value] else []) + TagIds(tags[1..])
  }

  function ParseGroup(group: string): seq<TagGroup> {
    if group == [] then []
    else
      var negate := group[0] == '!';
      var ids := TagIds(Split(if negate then group[1..] else group, '_'));
      if ids == [] then [] else [TagGroup(negate, ids)]
  }

  function ParseGroups(pieces: seq<string>): seq<TagGroup> {
    if pieces == [] then [] else ParseGroup(pieces[0]) + ParseGroups(pieces[1..])
  }

  function Parse(query: string): seq<TagGroup> {
    ParseGroups(Split(query, ','))
  }

  function Mentioned(gr: seq<TagGroup>): set<int> {
    set g, id | g in gr && id in g.tagIds :: id
  }

  // ---- Dropping what does not exist ----

  function Known(ids: seq<int>, existing: set<int>): seq<int> {
    if ids == [] then []
    else (if ids[0] in existing then [ids[0]] else []) + Known(ids[1..], existing)
  }

  function Normalise(gr: seq<TagGroup>, existing: set<int>): seq<TagGroup> {
    if gr == [] then []
    else
      var ids := Known(gr[0].tagIds, existing);
      (if ids == [] then [] else [TagGroup(gr[0].negate, ids)]) + Normalise(gr[1..], existing)
  }

  // ---- What a query asks for ----

  /** Some tag of the group is on the problem, or none is when the group is negated. */
  predicate GroupAccepts(g: TagGroup, tags: set<int>) {
    (exists id :: id in g.tagIds && id in tags) != g.negate
  }

  /** The clauses are joined with AND; without groups there is none. */
  predicate Accepts(gr: seq<TagGroup>, tags: set<int>) {
    gr == [] || (GroupAccepts(gr[0], tags) && Accepts(gr[1..], tags))
  }

  predicate LostEverything(g: TagGroup, existing: set<int>) {
    forall id | id in g.tagIds :: id !in existing
  }

  /** Some group that asks for a tag was left with none and dropped. */
  predicate LosesPositive(gr: seq<TagGroup>, existing: set<int>) {
    gr != [] && ((!gr[0].negate && LostEverything(gr[0], existing)) || LosesPositive(gr[1..], existing))
  }

  // ---- The code ----

  method ParseTagIds(tags: seq<string>) returns (tagIds: seq<int>)
    ensures tagIds == TagIds(tags)
  {
    tagIds := [];
    for k := 0 to |tags|
      invariant tagIds + TagIds(tags[k..]) == TagIds(tags)
    {
      assert tags[k..][0] == tags[k] && tags[k..][1..] == tags[k + 1..];
      var id := Atoi(tags[k]);
      if id.Some? {
        tagIds := tagIds + [id.value];
      }
    }
  }

  method ParseTags(query: string) returns (gr: seq<TagGroup>, allTags: seq<int>)
    ensures gr == Parse(query) && Elements(allTags) == Mentioned(gr)
  {
    hide Split, TagIds, ParseGroups, Mentioned, Elements;
    gr, allTags := [], [];
    NothingMentioned();
    var pieces := Split(query, ',');
    for k := 0 to |pieces|
      invariant gr + ParseGroups(pieces[k..]) == ParseGroups(pieces)
      invariant Elements(allTags) == Mentioned(gr)
    {
      NextGroup(pieces, k);
      var group := pieces[k];
      if |group| == 0 {
        continue;
      }
      var negate := false;
      if group[0] == '!' {
        group := group[1..];
        negate := true;
      }
      var tagIds := ParseTagIds(Split(group, '_'));
      if |tagIds| > 0 {
        MoreMentioned(gr, TagGroup(negate, tagIds), allTags);
        gr := gr + [TagGroup(negate, tagIds)];
      } else {
        assert allTags + tagIds == allTags;
      }
      allTags := allTags + tagIds;
    }
    NoMoreGroups(pieces);
    assert gr + [] == gr;
  }

  lemma NothingMentioned()
    ensures Elements([]) == Mentioned([])
  {
  }

  lemma NextGroup(pieces: seq<string>, k: nat)
    requires k < |pieces|
    ensures ParseGroups(pieces[k..]) == ParseGroup(pieces[k]) + ParseGroups(pieces[k + 1..])
    ensures forall gr: seq<TagGroup> ::
      ParseGroup(pieces[k]) == [] ==> gr + ParseGroups(pieces[k..]) == gr + ParseGroups(pieces[k + 1..])
  {
    assert pieces[k..][0] == pieces[k] && pieces[k..][1..] == pieces[k + 1..];
  }

  lemma NoMoreGroups(pieces: seq<string>)
    ensures ParseGroups(pieces[|pieces|..]) == [] && ParseGroups(pieces[0..]) == ParseGroups(pieces)
  {
    assert pieces[0..] == pieces;
  }

  lemma MoreMentioned(gr: seq<TagGroup>, g: TagGroup, all: seq<int>)
    requires Elements(all) == Mentioned(gr)
    ensures Elements(all + g.tagIds) == Mentioned(gr + [g])
  {
    forall id ensures id in Elements(all + g.tagIds) <==> id in Mentioned(gr + [g]) {
      InMentioned(gr, id);
      InMentioned(gr + [g], id);
      InMentionedMore(gr, g, id);
    }
  }

  lemma InMentioned(gr: seq<TagGroup>, id: int)
    ensures id in Mentioned(gr) <==> exists g :: g in gr && id in g.tagIds
  {
  }

  lemma InMentionedMore(gr: seq<TagGroup>, g: TagGroup, id: int)
    ensures (exists h :: h in gr + [g] && id in h.tagIds) <==> (exists h :: h in gr && id in h.tagIds) || id in g.tagIds
  {
    assert g in gr + [g];
    assert forall h | h in gr :: h in gr + [g];
  }

  /** TagsByID: those of the ids that are there. */
  function TagsById(existing: set<int>, ids: seq<int>): set<int> {
    set id | id in ids && id in existing
  }

  method KeepKnown(ids: seq<int>, tagMap: set<int>) returns (kept: seq<int>)
    ensures kept == Known(ids, tagMap)
  {
    kept := [];
    for k := 0 to |ids|
      invariant kept + Known(ids[k..], tagMap) == Known(ids, tagMap)
    {
      assert ids[k..][0] == ids[k] && ids[k..][1..] == ids[k + 1..];
      if ids[k] in tagMap {
        kept := kept + [ids[k]];
      }
    }
  }

  /** The groups that the problem list is filtered by. */
  method TagGroups(query: string, existing: set<int>) returns (gr: seq<TagGroup>)
    ensures gr == Normalise(Parse(query), existing)
  {
    hide Known, Parse, Normalise, Elements, TagsById, Sorted;
    var parsed, allTags := ParseTags(query);
    var compact := Sorted(Elements(allTags));
    var tagMap := TagsById(existing, compact);
    SameLookups(allTags, existing);
    gr := [];
    for k := 0 to |parsed|
      invariant gr + Normalise(parsed[k..], tagMap) == Normalise(parsed, tagMap)
    {
      NextNormalised(parsed, k, tagMap);
      var kept := KeepKnown(parsed[k].tagIds, tagMap);
      if |kept| > 0 {
        gr := gr + [TagGroup(parsed[k].negate, kept)];
      }
    }
    NoneNormalised(parsed, tagMap);
    assert gr + [] == gr;
    SameNormalised(parsed, tagMap, existing);
  }

  lemma NextNormalised(gr: seq<TagGroup>, k: nat, existing: set<int>)
    requires k < |gr|
    ensures
      var ids := Known(gr[k].tagIds, existing);
      Normalise(gr[k..], existing) ==
        (if ids == [] then [] else [TagGroup(gr[k].negate, ids)]) + Normalise(gr[k + 1..], existing)
    ensures forall done: seq<TagGroup> ::
      Known(gr[k].tagIds, existing) == [] ==>
        done + Normalise(gr[k..], existing) == done + Normalise(gr[k + 1..], existing)
  {
    hide Known;
    assert gr[k..][0] == gr[k] && gr[k..][1..] == gr[k + 1..];
  }

  lemma NoneNormalised(gr: seq<TagGroup>, existing: set<int>)
    ensures Normalise(gr[|gr|..], existing) == [] && Normalise(gr[0..], existing) == Normalise(gr, existing)
  {
    assert gr[0..] == gr;
  }

  lemma SameLookups(ids: seq<int>, existing: set<int>)
    ensures forall id | id in Elements(ids) :: id in TagsById(existing, Sorted(Elements(ids))) <==> id in existing
  {
    var sorted := Sorted(Elements(ids));
    assert IsSorted(sorted, Elements(ids));
  }

  lemma {:induction false} SameKnown(ids: seq<int>, a: set<int>, b: set<int>)
    requires forall i | 0 <= i < |ids| :: ids[i] in a <==> ids[i] in b
    ensures Known(ids, a) == Known(ids, b)
  {
    if ids != [] {
      SameKnown(ids[1..], a, b);
    }
  }

  lemma {:induction false} SameNormalised(gr: seq<TagGroup>, a: set<int>, b: set<int>)
    requires forall id | id in Mentioned(gr) :: id in a <==> id in b
    ensures Normalise(gr, a) == Normalise(gr, b)
  {
    hide Known;
    if gr != [] {
      assert gr[0] in gr && gr == [gr[0]] + gr[1..];
      forall i | 0 <= i < |gr[0].tagIds| ensures gr[0].tagIds[i] in a <==> gr[0].tagIds[i] in b {
        var id := gr[0].tagIds[i];
        assert id in gr[0].tagIds;
        InMentioned(gr, id);
      }
      SameKnown(gr[0].tagIds, a, b);
      forall id | id in Mentioned(gr[1..]) ensures id in Mentioned(gr) {
      }
      SameNormalised(gr[1..], a, b);
    }
  }

  // ---- Keeping the meaning ----

  lemma {:induction false} KnownAre(ids: seq<int>, existing: set<int>, id: int)
    ensures id in Known(ids, existing) <==> id in ids && id in existing
  {
    if ids != [] {
      assert ids == [ids[0]] + ids[1..];
      KnownAre(ids[1..], existing, id);
    }
  }

  /** One group: dropped ids change nothing for a problem whose tags exist, unless none is left. */
  lemma GroupMeaning(g: TagGroup, existing: set<int>, tags: set<int>)
    requires tags <= existing
    ensures Known(g.tagIds, existing) == [] <==> LostEverything(g, existing)
    ensures LostEverything(g, existing) ==> (GroupAccepts(g, tags) <==> g.negate)
    ensures GroupAccepts(TagGroup(g.negate, Known(g.tagIds, existing)), tags) <==> GroupAccepts(g, tags)
  {
    var kept := Known(g.tagIds, existing);
    forall id ensures id in kept <==> id in g.tagIds && id in existing {
      KnownAre(g.tagIds, existing, id);
    }
    if kept == [] {
      forall id | id in g.tagIds ensures id !in existing {
        KnownAre(g.tagIds, existing, id);
      }
    } else {
      var id := kept[0];
      assert id in kept;
      assert id in g.tagIds && id in existing;
    }
  }

  /** The groups as written ask for what the normalised ones ask for, and that no positive group was lost. */
  lemma {:induction false} NormalisedMeaning(gr: seq<TagGroup>, existing: set<int>, tags: set<int>)
    requires tags <= existing
    ensures Accepts(gr, tags) <==> Accepts(Normalise(gr, existing), tags) && !LosesPositive(gr, existing)
  {
    hide GroupAccepts, LostEverything, Known;
    if gr != [] {
      GroupMeaning(gr[0], existing, tags);
      NormalisedMeaning(gr[1..], existing, tags);
      var ids := Known(gr[0].tagIds, existing);
      if ids != [] {
        var g := TagGroup(gr[0].negate, ids);
        assert Normalise(gr, existing)[0] == g && Normalise(gr, existing)[1..] == Normalise(gr[1..], existing);
      } else {
        assert Normalise(gr, existing) == Normalise(gr[1..], existing);
      }
    }
  }

  /** So normalising keeps the meaning exactly when no positive group was lost, or the problem is refused anyway. */
  lemma NormalisingKeepsMeaning(query: string, existing: set<int>, tags: set<int>)
    requires tags <= existing
    ensures
      var (parsed, used) := (Parse(query), Normalise(Parse(query), existing));
      (Accepts(used, tags) <==> Accepts(parsed, tags)) <==> !LosesPositive(parsed, existing) || !Accepts(used, tags)
  {
    hide Parse, Accepts, Normalise, LosesPositive;
    NormalisedMeaning(Parse(query), existing, tags);
  }

  /** Asking for tag 5 when there is none shows every problem. */
  lemma UnknownTagShowsEverything(tags: set<int>)
    ensures Parse("5") == [TagGroup(false, [5])]
    ensures 5 !in tags ==> !Accepts(Parse("5"), tags)
    ensures Accepts(Normalise(Parse("5"), {}), tags)
  {
    assert "5"[1..] == [];
    SplitPlain("5", ',');
    SplitPlain("5", '_');
    assert Atoi("5") == Some(5);
    assert TagIds(["5"]) == [5];
    assert ["5"][1..] == [];
    assert Known([5], {}) == [];
  }

  // ---- What a query means, said of its text ----

  /** A piece without its mark of negation. */
  function Unmarked(piece: string): string
    requires piece != []
  {
    if piece[0] == '!' then piece[1..] else piece
  }

  /** Some part of the piece is this number. */
  ghost predicate Names(piece: string, id: int)
    requires piece != []
  {
    exists part :: part in Split(Unmarked(piece), '_') && Atoi(part) == Some(id)
  }

  ghost predicate NamesAny(piece: string)
    requires piece != []
  {
    exists id :: Names(piece, id)
  }

  ghost predicate NamesOneOf(piece: string, tags: set<int>)
    requires piece != []
  {
    exists id :: id in tags && Names(piece, id)
  }

  lemma {:induction false} TagIdsAre(parts: seq<string>, id: int)
    ensures id in TagIds(parts) <==> exists part :: part in parts && Atoi(part) == Some(id)
  {
    hide Atoi;
    if parts != [] {
      TagIdsAre(parts[1..], id);
      assert parts == [parts[0]] + parts[1..];
    }
  }

  /** A piece is a group exactly when it names some tag: it asks for one of those it names, or for none of them. */
  lemma GroupMeans(piece: string, tags: set<int>)
    requires piece != []
    ensures ParseGroup(piece) == [] <==> !NamesAny(piece)
    ensures ParseGroup(piece) != [] ==>
      |ParseGroup(piece)| == 1
      && (GroupAccepts(ParseGroup(piece)[0], tags) <==> (NamesOneOf(piece, tags) <==> piece[0] != '!'))
  {
    hide Atoi, Split, Names, TagIds;
    var ids := TagIds(Split(Unmarked(piece), '_'));
    forall id ensures id in ids <==> Names(piece, id) {
      NamedIds(piece, id);
    }
    if ids != [] {
      assert ids[0] in ids && Names(piece, ids[0]);
    }
    if NamesAny(piece) {
      var id :| Names(piece, id);
      assert id in ids;
    }
  }

  lemma NamedIds(piece: string, id: int)
    requires piece != []
    ensures id in TagIds(Split(Unmarked(piece), '_')) <==> Names(piece, id)
  {
    TagIdsAre(Split(Unmarked(piece), '_'), id);
  }

  /** The query accepts a problem if and only if each of its pieces that names any tag does. */
  lemma {:induction false} PiecesMean(pieces: seq<string>, tags: set<int>)
    ensures Accepts(ParseGroups(pieces), tags) <==>
      forall piece | piece in pieces && piece != [] && NamesAny(piece) ::
        NamesOneOf(piece, tags) <==> piece[0] != '!'
  {
    hide NamesAny, NamesOneOf, ParseGroup, GroupAccepts;
    if pieces != [] {
      PiecesMean(pieces[1..], tags);
      assert pieces == [pieces[0]] + pieces[1..];
      if pieces[0] == [] {
        assert ParseGroup([]) == [] by { NoGroup(); }
      } else {
        GroupMeans(pieces[0], tags);
      }
      var first, rest := ParseGroup(pieces[0]), ParseGroups(pieces[1..]);
      if first != [] {
        assert first == [first[0]] && (first + rest)[0] == first[0] && (first + rest)[1..] == rest;
      } else {
        assert first + rest == rest;
      }
    }
  }

  lemma NoGroup()
    ensures ParseGroup([]) == []
  {
  }

  lemma QueryMeans(query: string, tags: set<int>)
    ensures Accepts(Parse(query), tags) <==>
      forall piece | piece in Split(query, ',') && piece != [] && NamesAny(piece) ::
        NamesOneOf(piece, tags) <==> piece[0] != '!'
  {
    PiecesMean(Split(query, ','), tags);
  }

  // ---- Writing a query ----

  function Join(parts: seq<string>, sep: char): string
    requires parts != []
  {
    if |parts| == 1 then parts[0] else parts[0] + [sep] + Join(parts[1..], sep)
  }

  lemma {:induction false} SplitPlain(s: string, sep: char)
    requires sep !in s
    ensures Split(s, sep) == [s]
  {
    if s != [] {
      assert s == [s[0]] + s[1..];
      SplitPlain(s[1..], sep);
    }
  }

  lemma {:induction false} SplitFirst(s: string, rest: string, sep: char)
    requires sep !in s
    ensures Split(s + [sep] + rest, sep) == [s] + Split(rest, sep)
  {
    var whole := s + [sep] + rest;
    if s == [] {
      assert whole[1..] == rest;
    } else {
      assert s == [s[0]] + s[1..];
      assert whole[1..] == s[1..] + [sep] + rest;
      SplitFirst(s[1..], rest, sep);
      assert whole[0] == s[0] != sep;
    }
  }

  /** Splitting undoes joining. */
  lemma {:induction false} SplitJoin(parts: seq<string>, sep: char)
    requires parts != [] && forall p | p in parts :: sep !in p
    ensures Split(Join(parts, sep), sep) == parts
  {
    assert parts[0] in parts;
    if |parts| == 1 {
      SplitPlain(parts[0], sep);
    } else {
      assert forall p | p in parts[1..] :: p in parts;
      SplitJoin(parts[1..], sep);
      SplitFirst(parts[0], Join(parts[1..], sep), sep);
    }
  }

  function IdTexts(ids: seq<int>): seq<string> {
    if ids == [] then [] else [Itoa(ids[0])] + IdTexts(ids[1..])
  }

  function PrintGroup(g: TagGroup): string
    requires g.tagIds != []
  {
    (if g.negate then ['!'] else []) + Join(IdTexts(g.tagIds), '_')
  }

  function GroupTexts(gr: seq<TagGroup>): seq<string>
    requires forall g | g in gr :: g.tagIds != []
  {
    if gr == [] then [] else [PrintGroup(gr[0])] + GroupTexts(gr[1..])
  }

  /** A query in its documented form. */
  function Print(gr: seq<TagGroup>): string
    requires forall g | g in gr :: g.tagIds != []
  {
    if gr == [] then [] else Join(GroupTexts(gr), ',')
  }

  lemma {:induction false} IdTextsAreRead(ids: seq<int>)
    requires forall i | 0 <= i < |ids| :: Fits(ids[i])
    ensures TagIds(IdTexts(ids)) == ids && |IdTexts(ids)| == |ids|
    ensures forall p | p in IdTexts(ids) :: p != [] && p[0] != '!' && ',' !in p && '_' !in p
  {
    hide Atoi, Itoa;
    if ids != [] {
      AtoiItoa(ids[0]);
      IdTextsAreRead(ids[1..]);
      assert ids == [ids[0]] + ids[1..];
    }
  }

  lemma {:induction false} JoinKeepsOut(parts: seq<string>, sep: char, c: char)
    requires parts != [] && c != sep && forall p | p in parts :: c !in p
    ensures c !in Join(parts, sep)
  {
    assert parts[0] in parts;
    if |parts| > 1 {
      assert forall p | p in parts[1..] :: p in parts;
      JoinKeepsOut(parts[1..], sep, c);
    }
  }

  lemma JoinStart(parts: seq<string>, sep: char)
    requires parts != [] && parts[0] != []
    ensures Join(parts, sep) != [] && Join(parts, sep)[0] == parts[0][0]
  {
  }

  lemma GroupIsRead(g: TagGroup)
    requires g.tagIds != [] && forall i | 0 <= i < |g.tagIds| :: Fits(g.tagIds[i])
    ensures ParseGroup(PrintGroup(g)) == [g] && ',' !in PrintGroup(g)
  {
    hide Split, Join, IdTexts, TagIds;
    var texts := IdTexts(g.tagIds);
    IdTextsAreRead(g.tagIds);
    assert texts[0] in texts;
    SplitJoin(texts, '_');
    JoinKeepsOut(texts, '_', ',');
    JoinStart(texts, '_');
    if g.negate {
      assert PrintGroup(g)[1..] == Join(texts, '_');
    } else {
      assert PrintGroup(g) == Join(texts, '_');
    }
  }

  lemma {:induction false} GroupsAreRead(gr: seq<TagGroup>)
    requires forall g | g in gr :: g.tagIds != [] && forall i | 0 <= i < |g.tagIds| :: Fits(g.tagIds[i])
    ensures ParseGroups(GroupTexts(gr)) == gr && |GroupTexts(gr)| == |gr|
    ensures forall p | p in GroupTexts(gr) :: ',' !in p
  {
    hide ParseGroup, PrintGroup;
    if gr != [] {
      assert gr[0] in gr && forall g | g in gr[1..] :: g in gr;
      GroupIsRead(gr[0]);
      GroupsAreRead(gr[1..]);
      assert gr == [gr[0]] + gr[1..];
    }
  }

  /** A query is read as the groups it was written for. */
  lemma ParsePrint(gr: seq<TagGroup>)
    requires forall g | g in gr :: g.tagIds != [] && forall i | 0 <= i < |g.tagIds| :: Fits(g.tagIds[i])
    ensures Parse(Print(gr)) == gr
  {
    hide Join, ParseGroup, PrintGroup;
    if gr == [] {
      assert Split([], ',') == [[]];
      NothingRead();
    } else {
      GroupsAreRead(gr);
      SplitJoin(GroupTexts(gr), ',');
    }
  }

  lemma NothingRead()
    ensures ParseGroups([[]]) == []
  {
    var pieces: seq<string> := [[]];
    assert pieces[1..] == [];
  }
}
