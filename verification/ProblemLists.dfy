/**
  Turning the graph of problem lists, which may hold cycles, into a finite tree: a sublist is
  followed unless it is already on the path from the root.
*/
module ProblemLists {
  import opened Common

  datatype ProblemList = ProblemList(id: int, title: string, problems: seq<int>, subLists: seq<int>)

  datatype ScoredProblem = ScoredProblem(id: int, name: string, score: int)

  datatype FullList = FullList(
    list: ProblemList, problems: seq<ScoredProblem>, subLists: seq<FullList>,
    solvedCount: int, depthLevel: nat, root: bool)

  /** What the tree is built from: every list below the root, the visible problems, the solved counts. */
  datatype Source = Source(lists: seq<ProblemList>, problems: seq<ScoredProblem>, solved: map<int, int>)

  // ---- Looking up by id: slices.IndexFunc ----

  function IndexOfList(lists: seq<ProblemList>, id: int): (i: int)
    ensures -1 <= i < |lists| && (i >= 0 ==> lists[i].id == id)
  {
    if lists == [] then -1
    else if lists[0].id == id then 0
    else
      var i := IndexOfList(lists[1..], id);
      if i < 0 then -1 else i + 1
  }

  lemma {:induction false} ListIsFound(lists: seq<ProblemList>, id: int)
    ensures IndexOfList(lists, id) >= 0 <==> id in Ids(lists)
  {
    if lists != [] {
      ListIsFound(lists[1..], id);
      IdsOfRest(lists);
    }
  }

  lemma IdsOfRest(lists: seq<ProblemList>)
    requires lists != []
    ensures Ids(lists) == {lists[0].id} + Ids(lists[1..])
  {
    assert lists == [lists[0]] + lists[1..];
  }

  function IndexOfProblem(pbs: seq<ScoredProblem>, id: int): (i: int)
    ensures -1 <= i < |pbs| && (i >= 0 ==> pbs[i].id == id)
  {
    if pbs == [] then -1
    else if pbs[0].id == id then 0
    else
      var i := IndexOfProblem(pbs[1..], id);
      if i < 0 then -1 else i + 1
  }

  function Ids(lists: seq<ProblemList>): set<int> {
    set l | l in lists :: l.id
  }

  function OnPath(path: seq<int>): set<int> {
    set x | x in path
  }

  /** The measure: lists that are not on the path yet. */
  function OffPath(src: Source, path: seq<int>): set<int> {
    Ids(src.lists) - OnPath(path)
  }

  lemma PathGrows(src: Source, path: seq<int>, i: nat)
    requires i < |src.lists| && src.lists[i].id !in path
    ensures OffPath(src, [src.lists[i].id] + path) < OffPath(src, path)
  {
    var id := src.lists[i].id;
    assert src.lists[i] in src.lists;
    assert id in OffPath(src, path) && id in [id] + path;
  }

  // ---- The tree, as a function ----

  /** The problems of a list that are visible, in the order of the list. */
  function VisibleProblems(ids: seq<int>, pbs: seq<ScoredProblem>): seq<ScoredProblem> {
    if ids == [] then []
    else
      var i := IndexOfProblem(pbs, ids[0]);
      (if i >= 0 then [pbs[i]] else []) + VisibleProblems(ids[1..], pbs)
  }

  function MaxDepth(ts: seq<FullList>): nat {
    if ts == [] then 0
    else
      var d := MaxDepth(ts[1..]);
      if ts[0].depthLevel > d then ts[0].depthLevel else d
  }

  function SolvedOf(src: Source, id: int): int {
    if id in src.solved then src.solved[id] else 0
  }

  predicate Follows(src: Source, id: int, path: seq<int>) {
    id !in path && IndexOfList(src.lists, id) >= 0
  }

  function Unroll(src: Source, list: ProblemList, path: seq<int>): FullList
    decreases OffPath(src, path), |list.subLists| + 1
  {
    var subs := UnrollSubs(src, list.subLists, path);
    var visible := VisibleProblems(list.problems, src.problems);
    FullList(list, visible, subs, SolvedOf(src, list.id), MaxDepth(subs) + 1, |path| == 1)
  }

  function UnrollSubs(src: Source, ids: seq<int>, path: seq<int>): seq<FullList>
    decreases OffPath(src, path), |ids|
  {
    if ids == [] then []
    else if Follows(src, ids[0], path) then
      var i := IndexOfList(src.lists, ids[0]);
      PathGrows(src, path, i);
      [Unroll(src, src.lists[i], [src.lists[i].id] + path)] + UnrollSubs(src, ids[1..], path)
    else UnrollSubs(src, ids[1..], path)
  }

  // ---- The code ----

  /** The first loop of hydrateFullList. */
  method PickProblems(ids: seq<int>, pbs: seq<ScoredProblem>) returns (problems: seq<ScoredProblem>)
    ensures problems == VisibleProblems(ids, pbs)
  {
    problems := [];
    for k := 0 to |ids|
      invariant problems + VisibleProblems(ids[k..], pbs) == VisibleProblems(ids, pbs)
    {
      assert ids[k..][1..] == ids[k + 1..];
      var idx := IndexOfProblem(pbs, ids[k]);
      if idx >= 0 {
        problems := problems + [pbs[idx]];
      }
    }
  }

  method HydrateFullList(src: Source, list: ProblemList, path: seq<int>) returns (l: FullList)
    ensures l == Unroll(src, list, path)
    decreases OffPath(src, path)
  {
    hide VisibleProblems, OffPath, MaxDepth, IndexOfList;
    var problems := PickProblems(list.problems, src.problems);
    var subLists, depthLvl := [], 0;
    ghost var all := UnrollSubs(src, list.subLists, path);
    assert MaxDepth([]) == 0 by { NoDepth(); }
    assert list.subLists[0..] == list.subLists;
    for k := 0 to |list.subLists|
      invariant subLists + UnrollSubs(src, list.subLists[k..], path) == all
      invariant depthLvl == MaxDepth(subLists)
    {
      assert list.subLists[k..][0] == list.subLists[k] && list.subLists[k..][1..] == list.subLists[k + 1..];
      if list.subLists[k] in path { // on the path already: not entered again
        continue;
      }
      var idx := IndexOfList(src.lists, list.subLists[k]);
      if idx >= 0 {
        PathGrows(src, path, idx);
        var sub := HydrateFullList(src, src.lists[idx], [src.lists[idx].id] + path);
        DepthOfMore(subLists, sub);
        subLists := subLists + [sub];
        depthLvl := if sub.depthLevel > depthLvl then sub.depthLevel else depthLvl;
      }
    }
    var solvedCount := 0;
    if list.id in src.solved {
      solvedCount := src.solved[list.id];
    }
    assert list.subLists[|list.subLists|..] == [] && subLists + [] == subLists;
    assert subLists == all;
    l := FullList(list, problems, subLists, solvedCount, depthLvl + 1, |path| == 1);
  }

  lemma NoDepth()
    ensures MaxDepth([]) == 0
  {
  }

  lemma {:induction false} DepthOfMore(ts: seq<FullList>, t: FullList)
    ensures MaxDepth(ts + [t]) == if t.depthLevel > MaxDepth(ts) then t.depthLevel else MaxDepth(ts)
  {
    if ts == [] {
      assert [t][1..] == [];
    } else {
      assert (ts + [t])[1..] == ts[1..] + [t];
      DepthOfMore(ts[1..], t);
    }
  }

  // ---- The whole request ----

  /** Anonymous users get -1 everywhere, others 0 where the database counted nothing. */
  function SolvedCounts(ids: set<int>, counted: Option<map<int, int>>): map<int, int> {
    match counted
    case None => map id | id in ids :: -1
    case Some(m) => map id | id in ids + m.Keys :: if id in m then m[id] else 0
  }

  method NumSolvedFromPblists(listIDs: seq<int>, counted: Option<map<int, int>>) returns (vals: map<int, int>)
    ensures vals == SolvedCounts(OnPath(listIDs), counted)
    ensures forall id :: id in vals <==> id in listIDs || (counted.Some? && id in counted.value)
    ensures counted.None? ==> forall id | id in vals :: vals[id] == -1
    ensures counted.Some? ==>
      forall id | id in vals :: vals[id] == if id in counted.value then counted.value[id] else 0
  {
    if counted.None? {
      vals := map[];
      for k := 0 to |listIDs|
        invariant vals == SolvedCounts(OnPath(listIDs[..k]), counted)
      {
        assert listIDs[..k + 1] == listIDs[..k] + [listIDs[k]];
        vals := vals[listIDs[k] := -1];
      }
      assert listIDs[..|listIDs|] == listIDs;
      return;
    }
    vals := counted.value;
    for k := 0 to |listIDs|
      invariant vals == SolvedCounts(OnPath(listIDs[..k]), counted)
    {
      assert listIDs[..k + 1] == listIDs[..k] + [listIDs[k]];
      if listIDs[k] !in vals {
        vals := vals[listIDs[k] := 0];
      }
    }
    assert listIDs[..|listIDs|] == listIDs;
  }

  lemma {:induction false} FirstIndex(lists: seq<ProblemList>, id: int, k: nat)
    requires k < |lists| && lists[k].id == id && forall j | 0 <= j < k :: lists[j].id != id
    ensures IndexOfList(lists, id) == k
  {
    if k > 0 {
      assert lists[0].id != id;
      assert forall j | 0 <= j < k - 1 :: lists[1..][j] == lists[j + 1];
      FirstIndex(lists[1..], id, k - 1);
    }
  }

  lemma NoIndex(lists: seq<ProblemList>, id: int)
    requires forall j | 0 <= j < |lists| :: lists[j].id != id
    ensures IndexOfList(lists, id) < 0
  {
    ListIsFound(lists, id);
    assert id !in Ids(lists);
  }

  /** The tree below the list asked for, or an error when that list is not among those loaded. */
  method LoadFullProblemList(listID: int, lists: seq<ProblemList>, pbs: seq<ScoredProblem>,
      counted: Option<map<int, int>>)
    returns (r: Option<FullList>)
    ensures r.None? <==> listID !in Ids(lists)
    ensures r.Some? ==>
      IndexOfList(lists, listID) >= 0 && r.value ==
        Unroll(Source(lists, pbs, SolvedCounts(Ids(lists), counted)), lists[IndexOfList(lists, listID)], [listID])
  {
    var listIDs := [];
    for k := 0 to |lists|
      invariant OnPath(listIDs) == Ids(lists[..k])
    {
      assert lists[..k + 1] == lists[..k] + [lists[k]];
      MoreIds(listIDs, lists[..k], lists[k]);
      listIDs := listIDs + [lists[k].id];
    }
    assert lists[..|lists|] == lists;
    var solvedCnt := NumSolvedFromPblists(listIDs, counted);
    ListIsFound(lists, listID);
    var first := 0;
    while first < |lists| && lists[first].id != listID
      invariant first <= |lists| && forall j | 0 <= j < first :: lists[j].id != listID
    {
      first := first + 1;
    }
    if first == |lists| {
      NoIndex(lists, listID);
      return None;
    }
    FirstIndex(lists, listID, first);
    var tree := HydrateFullList(Source(lists, pbs, solvedCnt), lists[first], [listID]);
    r := Some(tree);
  }

  lemma MoreIds(ids: seq<int>, lists: seq<ProblemList>, l: ProblemList)
    requires OnPath(ids) == Ids(lists)
    ensures OnPath(ids + [l.id]) == Ids(lists + [l])
  {
    assert OnPath(ids + [l.id]) == OnPath(ids) + {l.id};
    assert Ids(lists + [l]) == Ids(lists) + {l.id};
  }
}
