/** The branches of the unrolled tree are the simple paths of the sublist graph. */
module ProblemListPaths {
  import opened Common
  import opened ProblemLists

  // ---- Paths of a tree ----

  function Prefixed(id: int, ps: seq<seq<int>>): seq<seq<int>> {
    if ps == [] then [] else [[id] + ps[0]] + Prefixed(id, ps[1..])
  }

  /** Every way down from the top, as list ids, in the order a reader meets them. */
  function Paths(t: FullList): seq<seq<int>>
    decreases t
  {
    [[t.list.id]] + SubPaths(t.list.id, t.subLists)
  }

  function SubPaths(id: int, ts: seq<FullList>): seq<seq<int>>
    decreases ts
  {
    if ts == [] then [] else Prefixed(id, Paths(ts[0])) + SubPaths(id, ts[1..])
  }

  // ---- Paths of the graph ----

  predicate Listed(src: Source, id: int) {
    IndexOfList(src.lists, id) >= 0
  }

  function ListOf(src: Source, id: int): ProblemList
    requires Listed(src, id)
  {
    src.lists[IndexOfList(src.lists, id)]
  }

  predicate Edge(src: Source, a: int, b: int) {
    Listed(src, a) && Listed(src, b) && b in ListOf(src, a).subLists
  }

  ghost predicate Walk(src: Source, x: seq<int>) {
    forall i | 0 <= i < |x| - 1 :: Edge(src, x[i], x[i + 1])
  }

  ghost predicate Distinct(x: seq<int>) {
    forall i, j | 0 <= i < j < |x| :: x[i] != x[j]
  }

  ghost predicate SimplePathFrom(src: Source, id: int, x: seq<int>) {
    x != [] && x[0] == id && Walk(src, x) && Distinct(x)
  }

  /** The same, one step at a time, as the code goes: every next list is off the path so far. */
  ghost predicate Steps(src: Source, list: ProblemList, path: seq<int>, x: seq<int>)
    decreases |x|
  {
    && x != [] && x[0] == list.id
    && (|x| > 1 ==>
          x[1] in list.subLists && Follows(src, x[1], path)
          && Steps(src, ListOf(src, x[1]), [x[1]] + path, x[1..]))
  }

  lemma {:induction false} InPrefixed(id: int, ps: seq<seq<int>>, x: seq<int>)
    ensures x in Prefixed(id, ps) <==> |x| > 0 && x[0] == id && x[1..] in ps
  {
    if ps != [] {
      InPrefixed(id, ps[1..], x);
      assert ps == [ps[0]] + ps[1..];
      assert ([id] + ps[0])[1..] == ps[0];
      assert |x| > 0 ==> x == [x[0]] + x[1..];
    }
  }

  lemma {:induction false} PathsAreSteps(src: Source, list: ProblemList, path: seq<int>, x: seq<int>)
    ensures x in Paths(Unroll(src, list, path)) <==> Steps(src, list, path, x)
    decreases OffPath(src, path), |list.subLists| + 1
  {
    hide OffPath;
    SubPathsAreSteps(src, list.id, list.subLists, path, x);
    var t := Unroll(src, list, path);
    assert Paths(t) == [[list.id]] + SubPaths(list.id, UnrollSubs(src, list.subLists, path));
    PathNotEmpty(list.id, t.subLists, x);
    if |x| == 1 {
      assert x == [x[0]];
    }
  }

  lemma {:induction false} PathNotEmpty(id: int, ts: seq<FullList>, x: seq<int>)
    ensures x in SubPaths(id, ts) ==> |x| > 1
    decreases ts
  {
    if ts != [] {
      PathNotEmpty(id, ts[1..], x);
      InPrefixed(id, Paths(ts[0]), x);
      if |x| > 0 {
        PathNotEmpty(ts[0].list.id, ts[0].subLists, x[1..]);
      }
    }
  }

  /** A path through one of the sublists `ids`. */
  ghost predicate StepsInto(src: Source, id: int, ids: seq<int>, path: seq<int>, x: seq<int>) {
    && |x| > 1 && x[0] == id && x[1] in ids && Follows(src, x[1], path)
    && Steps(src, ListOf(src, x[1]), [x[1]] + path, x[1..])
  }

  lemma {:induction false} SubPathsAreSteps(src: Source, id: int, ids: seq<int>, path: seq<int>, x: seq<int>)
    ensures x in SubPaths(id, UnrollSubs(src, ids, path)) <==> StepsInto(src, id, ids, path, x)
    decreases OffPath(src, path), |ids|
  {
    hide OffPath, Steps, Unroll;
    if ids != [] {
      SubPathsAreSteps(src, id, ids[1..], path, x);
      assert ids == [ids[0]] + ids[1..];
      if Follows(src, ids[0], path) {
        var i := IndexOfList(src.lists, ids[0]);
        PathGrows(src, path, i);
        var below := [src.lists[i].id] + path;
        var t := Unroll(src, src.lists[i], below);
        InPrefixed(id, Paths(t), x);
        if |x| > 0 {
          PathsAreSteps(src, src.lists[i], below, x[1..]);
          StepsStart(src, src.lists[i], below, x[1..]);
        }
        assert UnrollSubs(src, ids, path) == [t] + UnrollSubs(src, ids[1..], path);
      }
    }
  }

  lemma StepsStart(src: Source, list: ProblemList, path: seq<int>, x: seq<int>)
    ensures Steps(src, list, path, x) ==> x != [] && x[0] == list.id
  {
  }

  /** One step at a time or all at once: off the path so far means distinct. */
  lemma {:induction false} StepsAreSimple(src: Source, id: int, path: seq<int>, x: seq<int>)
    requires Listed(src, id) && id in path
    ensures Steps(src, ListOf(src, id), path, x) <==>
      SimplePathFrom(src, id, x) && forall i | 0 < i < |x| :: x[i] !in path
    decreases |x|
  {
    hide IndexOfList;
    if |x| > 1 && x[0] == id {
      var y := x[1..];
      assert forall i | 0 <= i < |y| :: y[i] == x[i + 1];
      if Edge(src, id, x[1]) && x[1] !in path {
        StepsAreSimple(src, x[1], [x[1]] + path, y);
        WalkTail(src, x);
        DistinctTail(x);
      }
    }
  }

  lemma WalkTail(src: Source, x: seq<int>)
    requires |x| > 1
    ensures Walk(src, x) <==> Edge(src, x[0], x[1]) && Walk(src, x[1..])
  {
    hide Edge;
    assert forall i | 0 <= i < |x| - 1 :: x[1..][i] == x[i + 1];
    if Edge(src, x[0], x[1]) && Walk(src, x[1..]) {
      forall i | 0 <= i < |x| - 1 ensures Edge(src, x[i], x[i + 1]) {
        assert i > 0 ==> Edge(src, x[1..][i - 1], x[1..][i]);
      }
    }
    if Walk(src, x) {
      forall i | 0 <= i < |x| - 2 ensures Edge(src, x[1..][i], x[1..][i + 1]) {
        assert Edge(src, x[i + 1], x[i + 2]);
      }
    }
  }

  lemma DistinctTail(x: seq<int>)
    requires |x| > 1
    ensures Distinct(x) <==> Distinct(x[1..]) && forall i | 0 < i < |x| :: x[i] != x[0]
  {
    assert forall i | 0 <= i < |x| - 1 :: x[1..][i] == x[i + 1];
    if Distinct(x[1..]) && forall i | 0 < i < |x| :: x[i] != x[0] {
      forall i, j | 0 <= i < j < |x| ensures x[i] != x[j] {
        assert i > 0 ==> x[1..][i - 1] != x[1..][j - 1];
      }
    }
  }

  /** On every graph, with or without cycles, the branches are exactly the simple paths from the root. */
  lemma BranchesAreSimplePaths(src: Source, root: int, x: seq<int>)
    requires Listed(src, root)
    ensures x in Paths(Unroll(src, ListOf(src, root), [root])) <==> SimplePathFrom(src, root, x)
  {
    PathsAreSteps(src, ListOf(src, root), [root], x);
    StepsAreSimple(src, root, [root], x);
    assert SimplePathFrom(src, root, x) ==> forall i | 0 < i < |x| :: x[i] != x[0];
  }

  // ---- In sublist order ----

  function Position(ids: seq<int>, x: int): nat {
    if ids == [] || ids[0] == x then 0 else 1 + Position(ids[1..], x)
  }

  /** A path comes before its continuations; two others compare where they part, by the order of the sublists. */
  ghost predicate Precedes(src: Source, ids: seq<int>, p: seq<int>, q: seq<int>)
    decreases |p|
  {
    && |q| > 1
    && (|p| <= 1 || Position(ids, p[1]) < Position(ids, q[1])
        || (p[1] == q[1] && Listed(src, p[1]) && Precedes(src, ListOf(src, p[1]).subLists, p[1..], q[1..])))
  }

  ghost predicate NoDuplicateEdges(src: Source) {
    forall l | l in src.lists :: Distinct(l.subLists)
  }

  ghost predicate InOrder(src: Source, ids: seq<int>, ps: seq<seq<int>>) {
    forall i, j | 0 <= i < j < |ps| :: Precedes(src, ids, ps[i], ps[j])
  }

  lemma InOrderConcat(src: Source, ids: seq<int>, a: seq<seq<int>>, b: seq<seq<int>>)
    requires InOrder(src, ids, a) && InOrder(src, ids, b)
    requires forall i, j | 0 <= i < |a| && 0 <= j < |b| :: Precedes(src, ids, a[i], b[j])
    ensures InOrder(src, ids, a + b)
  {
    hide Precedes;
  }

  lemma {:induction false} PrefixedAt(id: int, ps: seq<seq<int>>)
    ensures |Prefixed(id, ps)| == |ps| && forall i | 0 <= i < |ps| :: Prefixed(id, ps)[i] == [id] + ps[i]
  {
    if ps != [] {
      PrefixedAt(id, ps[1..]);
    }
  }

  lemma PrefixedInOrder(src: Source, id: int, ids: seq<int>, next: int, ps: seq<seq<int>>)
    requires Listed(src, next) && InOrder(src, ListOf(src, next).subLists, ps)
    requires forall i | 0 <= i < |ps| :: ps[i] != [] && ps[i][0] == next
    ensures InOrder(src, ids, Prefixed(id, ps))
  {
    hide Position;
    PrefixedAt(id, ps);
    forall i, j | 0 <= i < j < |ps| ensures Precedes(src, ids, [id] + ps[i], [id] + ps[j]) {
      assert ([id] + ps[i])[1..] == ps[i] && ([id] + ps[j])[1..] == ps[j];
      assert Precedes(src, ListOf(src, next).subLists, ps[i], ps[j]);
    }
  }

  lemma {:induction false} PositionOf(ids: seq<int>, k: nat)
    requires k < |ids| && Distinct(ids)
    ensures Position(ids, ids[k]) == k
  {
    if k > 0 {
      assert ids[0] != ids[k];
      assert forall i | 0 <= i < |ids| - 1 :: ids[1..][i] == ids[i + 1];
      PositionOf(ids[1..], k - 1);
    }
  }

  lemma {:induction false} PathsInOrder(src: Source, list: ProblemList, path: seq<int>)
    requires NoDuplicateEdges(src) && Distinct(list.subLists)
    ensures InOrder(src, list.subLists, Paths(Unroll(src, list, path)))
    decreases OffPath(src, path), |list.subLists| + 1
  {
    hide OffPath, Precedes;
    SubPathsInOrder(src, list.id, list.subLists, 0, path);
    assert list.subLists[0..] == list.subLists;
    var subs := SubPaths(list.id, UnrollSubs(src, list.subLists, path));
    assert InOrder(src, list.subLists, [[list.id]]);
    forall j | 0 <= j < |subs| ensures Precedes(src, list.subLists, [list.id], subs[j]) {
      assert subs[j] in subs;
      PathNotEmpty(list.id, UnrollSubs(src, list.subLists, path), subs[j]);
      ShortPrecedes(src, list.subLists, [list.id], subs[j]);
    }
    InOrderConcat(src, list.subLists, [[list.id]], subs);
  }

  lemma ShortPrecedes(src: Source, ids: seq<int>, p: seq<int>, q: seq<int>)
    requires |p| == 1 < |q|
    ensures Precedes(src, ids, p, q)
  {
  }

  lemma EarlierPrecedes(src: Source, ids: seq<int>, p: seq<int>, q: seq<int>)
    requires |p| > 1 && |q| > 1 && Position(ids, p[1]) < Position(ids, q[1])
    ensures Precedes(src, ids, p, q)
  {
  }

  /** The paths through the sublists from the k-th on. */
  lemma {:induction false} SubPathsInOrder(src: Source, id: int, ids: seq<int>, k: nat, path: seq<int>)
    requires NoDuplicateEdges(src) && Distinct(ids) && k <= |ids|
    ensures InOrder(src, ids, SubPaths(id, UnrollSubs(src, ids[k..], path)))
    decreases OffPath(src, path), |ids| - k
  {
    hide OffPath, Precedes, Paths, Unroll, Distinct;
    if k < |ids| {
      var next := ids[k];
      SubPathsInOrder(src, id, ids, k + 1, path);
      assert ids[k..][0] == next && ids[k..][1..] == ids[k + 1..];
      if Follows(src, next, path) {
        var i := IndexOfList(src.lists, next);
        var list := src.lists[i];
        PathGrows(src, path, i);
        var below := [list.id] + path;
        var t := Unroll(src, list, below);
        assert list in src.lists;
        PathsInOrder(src, list, below);
        forall j | 0 <= j < |Paths(t)| ensures Paths(t)[j] != [] && Paths(t)[j][0] == next {
          assert Paths(t)[j] in Paths(t);
          PathsAreSteps(src, list, below, Paths(t)[j]);
          StepsStart(src, list, below, Paths(t)[j]);
        }
        PrefixedInOrder(src, id, ids, next, Paths(t));
        var a, b := Prefixed(id, Paths(t)), SubPaths(id, UnrollSubs(src, ids[k + 1..], path));
        FirstBeforeRest(src, id, ids, k, path, Paths(t));
        InOrderConcat(src, ids, a, b);
        assert UnrollSubs(src, ids[k..], path) == [t] + UnrollSubs(src, ids[k + 1..], path);
      }
    }
  }

  lemma FirstBeforeRest(src: Source, id: int, ids: seq<int>, k: nat, path: seq<int>, ps: seq<seq<int>>)
    requires Distinct(ids) && k < |ids|
    requires forall j | 0 <= j < |ps| :: ps[j] != [] && ps[j][0] == ids[k]
    ensures
      var a, b := Prefixed(id, ps), SubPaths(id, UnrollSubs(src, ids[k + 1..], path));
      forall i, j | 0 <= i < |a| && 0 <= j < |b| :: Precedes(src, ids, a[i], b[j])
  {
    hide OffPath, Precedes, Unroll, Steps, Position, Prefixed, SubPaths;
    var a, b := Prefixed(id, ps), SubPaths(id, UnrollSubs(src, ids[k + 1..], path));
    PrefixedAt(id, ps);
    forall i, j | 0 <= i < |a| && 0 <= j < |b| ensures Precedes(src, ids, a[i], b[j]) {
      assert a[i][1] == ids[k];
      assert b[j] in b;
      SubPathsAreSteps(src, id, ids[k + 1..], path, b[j]);
      var m :| 0 <= m < |ids| - k - 1 && ids[k + 1..][m] == b[j][1];
      assert ids[k + 1 + m] == b[j][1];
      PositionOf(ids, k);
      PositionOf(ids, k + 1 + m);
      EarlierPrecedes(src, ids, a[i], b[j]);
    }
  }

  lemma {:induction false} PrecedesIsStrict(src: Source, ids: seq<int>, p: seq<int>)
    ensures !Precedes(src, ids, p, p)
    decreases |p|
  {
    if |p| > 1 && Listed(src, p[1]) {
      PrecedesIsStrict(src, ListOf(src, p[1]).subLists, p[1..]);
    }
  }

  /** Each simple path is one branch, and the branches come in the order of the sublists. */
  lemma BranchesInOrder(src: Source, root: int)
    requires Listed(src, root) && NoDuplicateEdges(src)
    ensures
      var ps := Paths(Unroll(src, ListOf(src, root), [root]));
      InOrder(src, ListOf(src, root).subLists, ps) && forall i, j | 0 <= i < j < |ps| :: ps[i] != ps[j]
  {
    hide Precedes;
    var list := ListOf(src, root);
    assert list in src.lists;
    PathsInOrder(src, list, [root]);
    var ps := Paths(Unroll(src, list, [root]));
    forall i, j | 0 <= i < j < |ps| ensures ps[i] != ps[j] {
      assert Precedes(src, list.subLists, ps[i], ps[j]);
      PrecedesIsStrict(src, list.subLists, ps[i]);
    }
  }

  // ---- Depth ----

  /** depthLevel is the length of the longest branch. */
  lemma {:induction false} DepthIsLongest(src: Source, list: ProblemList, path: seq<int>, x: seq<int>)
    ensures x in Paths(Unroll(src, list, path)) ==> |x| <= Unroll(src, list, path).depthLevel
    decreases OffPath(src, path), |list.subLists| + 1
  {
    hide OffPath, MaxDepth;
    SubDepthIsLongest(src, list.id, list.subLists, path, x);
  }

  lemma {:induction false} SubDepthIsLongest(src: Source, id: int, ids: seq<int>, path: seq<int>, x: seq<int>)
    ensures x in SubPaths(id, UnrollSubs(src, ids, path)) ==> |x| <= MaxDepth(UnrollSubs(src, ids, path)) + 1
    decreases OffPath(src, path), |ids|
  {
    hide OffPath, Unroll, Paths;
    if ids != [] {
      SubDepthIsLongest(src, id, ids[1..], path, x);
      if Follows(src, ids[0], path) {
        var i := IndexOfList(src.lists, ids[0]);
        PathGrows(src, path, i);
        var below := [src.lists[i].id] + path;
        var t := Unroll(src, src.lists[i], below);
        InPrefixed(id, Paths(t), x);
        if |x| > 0 {
          DepthIsLongest(src, src.lists[i], below, x[1..]);
        }
        assert UnrollSubs(src, ids, path) == [t] + UnrollSubs(src, ids[1..], path);
      }
    }
  }

  lemma {:induction false} LongestExists(src: Source, list: ProblemList, path: seq<int>) returns (x: seq<int>)
    ensures x in Paths(Unroll(src, list, path)) && |x| == Unroll(src, list, path).depthLevel
    decreases OffPath(src, path), |list.subLists| + 1
  {
    hide OffPath, MaxDepth;
    var t := Unroll(src, list, path);
    if MaxDepth(t.subLists) == 0 {
      x := [list.id];
    } else {
      x := SubLongestExists(src, list.id, list.subLists, path);
    }
  }

  lemma {:induction false} SubLongestExists(src: Source, id: int, ids: seq<int>, path: seq<int>) returns (x: seq<int>)
    requires MaxDepth(UnrollSubs(src, ids, path)) > 0
    ensures x in SubPaths(id, UnrollSubs(src, ids, path)) && |x| == MaxDepth(UnrollSubs(src, ids, path)) + 1
    decreases OffPath(src, path), |ids|
  {
    hide OffPath, Unroll, Paths;
    if Follows(src, ids[0], path) {
      var i := IndexOfList(src.lists, ids[0]);
      PathGrows(src, path, i);
      var below := [src.lists[i].id] + path;
      var t := Unroll(src, src.lists[i], below);
      var rest := UnrollSubs(src, ids[1..], path);
      assert UnrollSubs(src, ids, path) == [t] + rest;
      if t.depthLevel > MaxDepth(rest) {
        var y := LongestExists(src, src.lists[i], below);
        x := [id] + y;
        InPrefixed(id, Paths(t), x);
      } else {
        x := SubLongestExists(src, id, ids[1..], path);
      }
    } else {
      x := SubLongestExists(src, id, ids[1..], path);
    }
  }

  lemma DistinctIsShort(src: Source, root: int, x: seq<int>)
    requires Listed(src, root) && SimplePathFrom(src, root, x)
    ensures |x| <= |Ids(src.lists)|
  {
    hide IndexOfList, Ids;
    DistinctCardinality(x);
    forall i | 0 <= i < |x| ensures x[i] in Ids(src.lists) {
      assert i > 0 ==> Edge(src, x[i - 1], x[i]);
      ListIsFound(src.lists, x[i]);
    }
    SubsetCardinality((set k | k in x), Ids(src.lists));
  }

  /** The depth of the whole tree is the length of the longest simple path, so at most the number of lists. */
  lemma DepthOfTheTree(src: Source, root: int) returns (longest: seq<int>)
    requires Listed(src, root)
    ensures
      var depth := Unroll(src, ListOf(src, root), [root]).depthLevel;
      && SimplePathFrom(src, root, longest) && |longest| == depth <= |Ids(src.lists)|
      && forall x | SimplePathFrom(src, root, x) :: |x| <= depth
  {
    hide Unroll, Paths, SimplePathFrom, Ids;
    var list := ListOf(src, root);
    longest := LongestExists(src, list, [root]);
    BranchesAreSimplePaths(src, root, longest);
    DistinctIsShort(src, root, longest);
    forall x | SimplePathFrom(src, root, x) ensures |x| <= Unroll(src, list, [root]).depthLevel {
      BranchesAreSimplePaths(src, root, x);
      DepthIsLongest(src, list, [root], x);
    }
  }

  /** Every edge leads to a smaller rank: there is no cycle. */
  ghost predicate Acyclic(src: Source, rank: int -> nat) {
    forall a, b | Edge(src, a, b) :: rank(b) < rank(a)
  }

  lemma {:induction false} RankFalls(src: Source, rank: int -> nat, x: seq<int>, i: nat, j: nat)
    requires Acyclic(src, rank) && Walk(src, x) && i < j < |x|
    ensures rank(x[j]) < rank(x[i])
    decreases j
  {
    hide Edge;
    assert Edge(src, x[j - 1], x[j]);
    if i < j - 1 {
      RankFalls(src, rank, x, i, j - 1);
    }
  }

  /** Without cycles nothing is cut: the branches are all the walks from the root, and depth is the longest of them. */
  lemma AcyclicKeepsEverything(src: Source, root: int, rank: int -> nat, x: seq<int>)
    requires Listed(src, root) && Acyclic(src, rank) && x != [] && x[0] == root && Walk(src, x)
    ensures x in Paths(Unroll(src, ListOf(src, root), [root]))
    ensures |x| <= Unroll(src, ListOf(src, root), [root]).depthLevel
  {
    hide Unroll, Paths, Edge, Acyclic;
    forall i, j | 0 <= i < j < |x| ensures x[i] != x[j] {
      RankFalls(src, rank, x, i, j);
    }
    BranchesAreSimplePaths(src, root, x);
    DepthIsLongest(src, ListOf(src, root), [root], x);
  }

  // ---- What the nodes hold ----

  /** The first visible problem with the id. */
  ghost predicate FirstWithId(pbs: seq<ScoredProblem>, id: int, p: ScoredProblem) {
    exists i :: 0 <= i < |pbs| && pbs[i] == p && p.id == id && forall j | 0 <= j < i :: pbs[j].id != id
  }

  /**
    The problems shown stand for these positions of the list, in ascending order: each is the first
    visible problem with the id found there, and at the other positions no visible problem has the id.
    Positions before `from` are left out.
  */
  ghost predicate Selects(ids: seq<int>, from: nat, pbs: seq<ScoredProblem>, problems: seq<ScoredProblem>,
      at: seq<int>) {
    && |at| == |problems|
    && (forall i, j | 0 <= i < j < |at| :: at[i] < at[j])
    && (forall k | 0 <= k < |at| :: from <= at[k] < |ids| && FirstWithId(pbs, ids[at[k]], problems[k]))
    && (forall i, p | from <= i < |ids| && i !in at && p in pbs :: p.id != ids[i])
  }

  ghost predicate ShowsVisible(ids: seq<int>, pbs: seq<ScoredProblem>, problems: seq<ScoredProblem>) {
    exists at :: Selects(ids, 0, pbs, problems, at)
  }

  lemma {:induction false} FirstIsFound(pbs: seq<ScoredProblem>, id: int)
    ensures IndexOfProblem(pbs, id) >= 0 ==> FirstWithId(pbs, id, pbs[IndexOfProblem(pbs, id)])
    ensures IndexOfProblem(pbs, id) < 0 ==> forall p | p in pbs :: p.id != id
  {
    if pbs != [] && pbs[0].id != id {
      FirstIsFound(pbs[1..], id);
      assert pbs == [pbs[0]] + pbs[1..];
      if IndexOfProblem(pbs, id) >= 0 {
        var i :| 0 <= i < |pbs[1..]| && pbs[1..][i] == pbs[1..][IndexOfProblem(pbs[1..], id)]
          && forall j | 0 <= j < i :: pbs[1..][j].id != id;
        assert forall j | 0 <= j < i + 1 :: pbs[j].id != id;
        assert pbs[i + 1] == pbs[IndexOfProblem(pbs, id)];
      }
    }
  }

  lemma {:induction false} VisibleFrom(ids: seq<int>, from: nat, pbs: seq<ScoredProblem>) returns (at: seq<int>)
    requires from <= |ids|
    ensures Selects(ids, from, pbs, VisibleProblems(ids[from..], pbs), at)
    decreases |ids| - from
  {
    hide FirstWithId;
    if from == |ids| {
      at := [];
    } else {
      at := VisibleFrom(ids, from + 1, pbs);
      assert ids[from..][1..] == ids[from + 1..];
      FirstIsFound(pbs, ids[from]);
      var i := IndexOfProblem(pbs, ids[from]);
      if i >= 0 {
        OneMoreSelected(ids, from, pbs, VisibleProblems(ids[from + 1..], pbs), at, pbs[i]);
        at := [from] + at;
      } else {
        assert [] + VisibleProblems(ids[from + 1..], pbs) == VisibleProblems(ids[from + 1..], pbs);
      }
    }
  }

  lemma OneMoreSelected(ids: seq<int>, from: nat, pbs: seq<ScoredProblem>, rest: seq<ScoredProblem>, at: seq<int>,
      p: ScoredProblem)
    requires from < |ids| && Selects(ids, from + 1, pbs, rest, at) && FirstWithId(pbs, ids[from], p)
    ensures Selects(ids, from, pbs, [p] + rest, [from] + at)
  {
    hide FirstWithId;
    var more := [from] + at;
    forall i, q | from <= i < |ids| && i !in more && q in pbs ensures q.id != ids[i] {
      assert more[0] == from;
      assert i !in at;
    }
  }

  /** A list shows, for each of its ids that some visible problem has, the first such problem, in its own order. */
  lemma VisibleInOrder(ids: seq<int>, pbs: seq<ScoredProblem>)
    ensures ShowsVisible(ids, pbs, VisibleProblems(ids, pbs))
  {
    var at := VisibleFrom(ids, 0, pbs);
    assert ids[0..] == ids;
  }

  /** Every node shows its own list: the visible problems in order, its solved count, the depth below it. */
  ghost predicate Faithful(src: Source, t: FullList)
    decreases t
  {
    && ShowsVisible(t.list.problems, src.problems, t.problems)
    && t.solvedCount == (if t.list.id in src.solved then src.solved[t.list.id] else 0)
    && t.depthLevel == MaxDepth(t.subLists) + 1
    && AllBelow(src, t.subLists)
  }

  /** Nodes below the top are lists that were loaded, and none is marked as the root. */
  ghost predicate AllBelow(src: Source, ts: seq<FullList>)
    decreases ts
  {
    ts == [] || (ts[0].list in src.lists && !ts[0].root && Faithful(src, ts[0]) && AllBelow(src, ts[1..]))
  }

  lemma {:induction false} TreeIsFaithful(src: Source, list: ProblemList, path: seq<int>)
    requires path != []
    ensures Faithful(src, Unroll(src, list, path)) && (Unroll(src, list, path).root <==> |path| == 1)
    decreases OffPath(src, path), |list.subLists| + 1
  {
    hide OffPath, MaxDepth, VisibleProblems, ShowsVisible;
    VisibleInOrder(list.problems, src.problems);
    BelowIsFaithful(src, list.subLists, path);
  }

  lemma {:induction false} BelowIsFaithful(src: Source, ids: seq<int>, path: seq<int>)
    requires path != []
    ensures AllBelow(src, UnrollSubs(src, ids, path))
    decreases OffPath(src, path), |ids|
  {
    hide OffPath, Faithful;
    if ids != [] {
      BelowIsFaithful(src, ids[1..], path);
      if Follows(src, ids[0], path) {
        var i := IndexOfList(src.lists, ids[0]);
        PathGrows(src, path, i);
        TreeIsFaithful(src, src.lists[i], [src.lists[i].id] + path);
      }
    }
  }
}
