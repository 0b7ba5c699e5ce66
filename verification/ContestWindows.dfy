/** Sums of values held under integer keys. */
module RealSums {
  import opened Ordering

  function Sum(keys: set<int>, v: map<int, real>): real
    requires keys <= v.Keys
    decreases |keys|
  {
    if keys == {} then 0.0
    else
      var k := Min(keys);
      v[k] + Sum(keys - {k}, v)
  }

  /** Any key may be taken out first. */
  lemma {:induction false} SumWithout(keys: set<int>, v: map<int, real>, k: int)
    requires keys <= v.Keys && k in keys
    ensures Sum(keys, v) == v[k] + Sum(keys - {k}, v)
    decreases |keys|
  {
    var m := Min(keys);
    if k != m {
      SumWithout(keys - {m}, v, k);
      SumWithout(keys - {k}, v, m);
      assert keys - {m} - {k} == keys - {k} - {m};
    }
  }

  /** More keys, larger values and nothing negative: no smaller sum; equal only if nothing grew. */
  lemma {:induction false} SumGrows(small: set<int>, v: map<int, real>, large: set<int>, w: map<int, real>)
    requires small <= v.Keys && large <= w.Keys && small <= large
    requires forall k | k in small :: v[k] <= w[k]
    requires forall k | k in large :: 0.0 <= w[k]
    ensures Sum(small, v) <= Sum(large, w)
    ensures forall k | k in large && (if k in small then v[k] < w[k] else 0.0 < w[k]) :: Sum(small, v) < Sum(large, w)
    decreases |large|
  {
    if large != {} {
      var m := Min(large);
      SumWithout(large, w, m);
      if m in small {
        SumWithout(small, v, m);
        SumGrows(small - {m}, v, large - {m}, w);
      } else {
        SumGrows(small, v, large - {m}, w);
      }
    }
  }

  lemma {:induction false} SumSame(keys: set<int>, v: map<int, real>, w: map<int, real>)
    requires keys <= v.Keys && keys <= w.Keys
    requires forall k | k in keys :: v[k] == w[k]
    ensures Sum(keys, v) == Sum(keys, w)
    decreases |keys|
  {
    if keys != {} {
      SumSame(keys - {Min(keys)}, v, w);
    }
  }

  /** Larger values give a larger sum. */
  lemma {:induction false} SumMonotone(keys: set<int>, v: map<int, real>, w: map<int, real>)
    requires keys <= v.Keys && keys <= w.Keys
    requires forall k | k in keys :: v[k] <= w[k]
    ensures Sum(keys, v) <= Sum(keys, w)
    decreases |keys|
  {
    if keys != {} {
      SumMonotone(keys - {Min(keys)}, v, w);
    }
  }

  /** Leaving out, or not having, what adds nothing leaves the sum as it is. */
  lemma {:induction false} SumSkipsZeros(small: set<int>, v: map<int, real>, large: set<int>, w: map<int, real>)
    requires small <= v.Keys && large <= w.Keys && small <= large
    requires forall k | k in large :: w[k] == if k in small then v[k] else 0.0
    ensures Sum(small, v) == Sum(large, w)
    decreases |large|
  {
    if large != {} {
      var m := Min(large);
      if m in small {
        SumWithout(small, v, m);
        SumSkipsZeros(small - {m}, v, large - {m}, w);
      } else {
        SumSkipsZeros(small, v, large - {m}, w);
      }
    }
  }

  /** A sum of non-negative values is positive only if one of them is. */
  lemma {:induction false} PositiveTerm(keys: set<int>, v: map<int, real>) returns (k: int)
    requires keys <= v.Keys && Sum(keys, v) > 0.0
    ensures k in keys && v[k] > 0.0
    decreases |keys|
  {
    var m := Min(keys);
    if v[m] > 0.0 {
      k := m;
    } else {
      k := PositiveTerm(keys - {m}, v);
    }
  }
}

/**
  Both scoring queries keep one row of each partition: the first in the order of score, highest
  first, then time, earliest first. What SQL leaves open between equal rows is left open here.
*/
module ContestWindows {
  import opened Common

  /** What a window is partitioned by; whole submissions have no subtask. */
  datatype Key = Key(userId: int, problemId: int, subtaskId: Option<int>)

  datatype Attempt = Attempt(key: Key, at: int, score: real, scale: real)

  /** The higher score first, then the earlier time. */
  predicate Before(a: Attempt, b: Attempt) {
    a.score > b.score || (a.score == b.score && a.at < b.at)
  }

  ghost predicate IsFirst(all: set<Attempt>, k: Key, a: Attempt) {
    a in all && a.key == k && forall x | x in all && x.key == k :: !Before(x, a)
  }

  /** A possible result of the windowed query: one row for each partition that is there. */
  ghost predicate Window(all: set<Attempt>, m: map<Key, Attempt>) {
    (forall k | k in m :: IsFirst(all, k, m[k])) && (forall a | a in all :: a.key in m)
  }

  function Consider(m: map<Key, Attempt>, a: Attempt): map<Key, Attempt> {
    if a.key !in m || Before(a, m[a.key]) then m[a.key := a] else m
  }

  lemma ConsiderKeepsWindow(all: set<Attempt>, m: map<Key, Attempt>, a: Attempt)
    requires Window(all, m)
    ensures Window(all + {a}, Consider(m, a))
  {
    var n := Consider(m, a);
    forall k | k in n ensures IsFirst(all + {a}, k, n[k]) {
      if k in m {
        assert IsFirst(all, k, m[k]);
      }
    }
  }

  function UpTo(all: set<Attempt>, t: int): set<Attempt> {
    set a | a in all && a.at <= t
  }

  /** As time goes on a partition's best score can only grow. */
  lemma BestGrows(all: set<Attempt>, t: int, u: int, m: map<Key, Attempt>, n: map<Key, Attempt>, k: Key)
    requires t <= u && Window(UpTo(all, t), m) && Window(UpTo(all, u), n) && k in m
    ensures k in n && m[k].score <= n[k].score
  {
    assert IsFirst(UpTo(all, t), k, m[k]);
    assert m[k] in UpTo(all, u);
    assert IsFirst(UpTo(all, u), k, n[k]);
  }

  /** Up to the time of the best attempt the best score is smaller; from then on it is there. */
  lemma BestAppears(all: set<Attempt>, t: int, u: int, m: map<Key, Attempt>, n: map<Key, Attempt>, k: Key)
    requires t <= u && Window(UpTo(all, t), m) && Window(UpTo(all, u), n) && k in n
    ensures n[k].at <= t ==> k in m && m[k].score == n[k].score && m[k].at == n[k].at
    ensures n[k].at > t && k in m ==> m[k].score < n[k].score
  {
    assert IsFirst(UpTo(all, u), k, n[k]);
    if k in m {
      assert IsFirst(UpTo(all, t), k, m[k]);
      assert m[k] in UpTo(all, u);
    }
    if n[k].at <= t {
      assert n[k] in UpTo(all, t);
      assert IsFirst(UpTo(all, t), k, m[k]);
      BestGrows(all, t, u, m, n, k);
    }
  }

  /** Every query of this form has a result. */
  lemma {:induction false} WindowExists(all: set<Attempt>) returns (m: map<Key, Attempt>)
    ensures Window(all, m)
    decreases |all|
  {
    if all == {} {
      m := map[];
    } else {
      var a := Pick(all);
      m := WindowExists(all - {a});
      ConsiderKeepsWindow(all - {a}, m, a);
      assert all - {a} + {a} == all;
      m := Consider(m, a);
    }
  }

  /** The partitions that a filter keeps whole may be computed before or after filtering. */
  lemma WindowRestricts(all: set<Attempt>, some: set<Attempt>, keys: set<Key>, m: map<Key, Attempt>)
    requires Window(all, m) && some <= all
    requires forall a | a in all :: a in some <==> a.key in keys
    ensures Window(some, map k | k in m && k in keys :: m[k])
  {
    forall k | k in m && k in keys ensures IsFirst(some, k, m[k]) {
      assert IsFirst(all, k, m[k]);
    }
  }

  lemma WindowExtends(all: set<Attempt>, some: set<Attempt>, keys: set<Key>,
      n: map<Key, Attempt>) returns (m: map<Key, Attempt>)
    requires Window(some, n) && some <= all
    requires forall a | a in all :: a in some <==> a.key in keys
    ensures Window(all, m) && n.Keys <= m.Keys && (forall k | k in n :: m[k] == n[k])
    ensures forall k | k in m && k in keys :: k in n
  {
    var whole := WindowExists(all);
    m := map k | k in whole :: if k in n then n[k] else whole[k];
    forall k | k in m ensures IsFirst(all, k, m[k]) {
      assert IsFirst(all, k, whole[k]);
      if k in n {
        assert IsFirst(some, k, n[k]);
      }
    }
    forall k | k in n ensures k in m && m[k] == n[k] {
      assert IsFirst(some, k, n[k]);
    }
    forall k | k in m && k in keys ensures k in n {
      assert IsFirst(all, k, whole[k]);
      assert whole[k] in some;
    }
  }
}
