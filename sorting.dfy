/** Python's `list.sort(key=..., reverse=True)` and `Counter.most_common`,
    both stable descending sorts: entries with a larger key come first and
    entries with equal keys keep their original order. An entry is a pair
    `(key, value)`. */
module Sorting {
  import opened Text

  predicate SortedDesc<T>(s: seq<(int, T)>) {
    forall i, j :: 0 <= i < j < |s| ==> s[i].0 >= s[j].0
  }

  /** The entries of `s` whose key is `v`, in order. */
  function WithKey<T>(s: seq<(int, T)>, v: int): seq<(int, T)>
    decreases |s|
  {
    if |s| == 0 then []
    else WithKey(s[..|s| - 1], v) + (if s[|s| - 1].0 == v then [s[|s| - 1]] else [])
  }

  lemma {:induction false} WithKeyAppend<T>(a: seq<(int, T)>, b: seq<(int, T)>, v: int)
    ensures WithKey(a + b, v) == WithKey(a, v) + WithKey(b, v)
    decreases |b|
  {
    if |b| == 0 {
      assert a + b == a;
    } else {
      var b', l := b[..|b| - 1], b[|b| - 1];
      assert a + b == (a + b') + [l];
      assert (a + b)[..|a + b| - 1] == a + b';
      WithKeyAppend(a, b', v);
    }
  }

  lemma WithKeyOne<T>(x: (int, T), v: int)
    ensures WithKey([x], v) == if x.0 == v then [x] else []
  {
    assert [x][..0] == [];
  }

  /** Places `x` after every entry whose key is at least `x`'s: into a sorted
      list, behind the entries it ties with. */
  function Insert<T>(s: seq<(int, T)>, x: (int, T)): (r: seq<(int, T)>)
    ensures multiset(r) == multiset(s) + multiset{x}
    ensures |r| == |s| + 1
    decreases |s|
  {
    if |s| == 0 then [x]
    else if s[|s| - 1].0 >= x.0 then s + [x]
    else
      var p := s[..|s| - 1];
      assert s == p + [s[|s| - 1]];
      Insert(p, x) + [s[|s| - 1]]
  }

  lemma {:induction false} InsertSorted<T>(s: seq<(int, T)>, x: (int, T))
    requires SortedDesc(s)
    ensures SortedDesc(Insert(s, x))
    decreases |s|
  {
    if |s| > 0 && s[|s| - 1].0 < x.0 {
      var p, l := s[..|s| - 1], s[|s| - 1];
      InsertSorted(p, x);
      var q := Insert(p, x);
      forall k | 0 <= k < |q| ensures q[k].0 >= l.0 {
        assert q[k] in multiset(q);
        assert q[k] in multiset(p) || q[k] == x;
      }
    }
  }

  /** Appending an entry `l` whose key is below `x`'s: at most one of the
      two lands in the entries with key `v`, so their order there is kept. */
  lemma WithKeyPassLast<T>(q: seq<(int, T)>, p: seq<(int, T)>, l: (int, T), x: (int, T), v: int)
    requires l.0 < x.0
    requires WithKey(q, v) == WithKey(p, v) + (if x.0 == v then [x] else [])
    ensures WithKey(q + [l], v) == WithKey(p + [l], v) + (if x.0 == v then [x] else [])
  {
    WithKeyAppend(q, [l], v);
    WithKeyAppend(p, [l], v);
    WithKeyOne(l, v);
  }

  lemma {:induction false} InsertWithKey<T>(s: seq<(int, T)>, x: (int, T), v: int)
    ensures WithKey(Insert(s, x), v) == WithKey(s, v) + (if x.0 == v then [x] else [])
    decreases |s|
  {
    if |s| == 0 {
      assert Insert(s, x) == [] + [x];
    } else if s[|s| - 1].0 >= x.0 {
      assert (s + [x])[..|s|] == s;
    } else {
      var p, l := s[..|s| - 1], s[|s| - 1];
      assert s == p + [l];
      InsertWithKey(p, x, v);
      WithKeyPassLast(Insert(p, x), p, l, x, v);
    }
  }

  /** `sorted(xs, key=lambda e: e[0], reverse=True)` */
  function SortDesc<T>(xs: seq<(int, T)>): (r: seq<(int, T)>)
    ensures SortedDesc(r)
    ensures multiset(r) == multiset(xs)
    ensures |r| == |xs|
    decreases |xs|
  {
    if |xs| == 0 then []
    else
      var p := xs[..|xs| - 1];
      assert xs == p + [xs[|xs| - 1]];
      InsertSorted(SortDesc(p), xs[|xs| - 1]);
      Insert(SortDesc(p), xs[|xs| - 1])
  }

  /** Stability: the entries with a given key come out in the order they went
      in. Together with `SortedDesc` and the multiset equality this fixes the
      result completely. */
  lemma {:induction false} SortDescStable<T>(xs: seq<(int, T)>, v: int)
    ensures WithKey(SortDesc(xs), v) == WithKey(xs, v)
    decreases |xs|
  {
    if |xs| > 0 {
      var p := xs[..|xs| - 1];
      SortDescStable(p, v);
      InsertWithKey(SortDesc(p), xs[|xs| - 1], v);
    }
  }

  lemma {:induction false} WithKeyMembers<T>(s: seq<(int, T)>, v: int, x: (int, T))
    ensures x in WithKey(s, v) <==> x in s && x.0 == v
    decreases |s|
  {
    if |s| > 0 {
      var p := s[..|s| - 1];
      WithKeyMembers(p, v, x);
      assert s == p + [s[|s| - 1]];
    }
  }

  lemma {:induction false} WithKeyDistinct<T>(s: seq<(int, T)>, v: int)
    requires Distinct(s)
    ensures Distinct(WithKey(s, v))
    decreases |s|
  {
    if |s| > 0 {
      var p, l := s[..|s| - 1], s[|s| - 1];
      WithKeyDistinct(p, v);
      WithKeyMembers(p, v, l);
      assert s == p + [l];
    }
  }

  /** Two entries with key `v` keep their relative order among the entries
      with key `v`. */
  lemma {:induction false} WithKeyOrder<T>(s: seq<(int, T)>, v: int, p: nat, q: nat)
    requires p < q < |s| && s[p].0 == v && s[q].0 == v
    ensures exists a, b :: 0 <= a < b < |WithKey(s, v)| && WithKey(s, v)[a] == s[p] && WithKey(s, v)[b] == s[q]
    decreases |s|
  {
    var init := s[..|s| - 1];
    if q < |s| - 1 {
      WithKeyOrder(init, v, p, q);
      var a, b :| 0 <= a < b < |WithKey(init, v)| && WithKey(init, v)[a] == init[p] && WithKey(init, v)[b] == init[q];
      assert WithKey(s, v)[a] == WithKey(init, v)[a] && WithKey(s, v)[b] == WithKey(init, v)[b];
    } else {
      WithKeyMembers(init, v, s[p]);
      assert s[p] == init[p];
      var a :| 0 <= a < |WithKey(init, v)| && WithKey(init, v)[a] == s[p];
      var w := WithKey(s, v);
      assert w == WithKey(init, v) + [s[q]];
      assert w[a] == s[p] && w[|w| - 1] == s[q];
    }
  }

  /** The whole order of a stable descending sort of distinct entries: an entry
      placed before another has a larger key, or an equal key and an earlier
      original position. */
  lemma SortDescOrder<T>(xs: seq<(int, T)>, i: nat, j: nat, p: nat, q: nat)
    requires Distinct(xs) && i < |xs| && j < |xs|
    requires p < q < |SortDesc(xs)| && SortDesc(xs)[p] == xs[i] && SortDesc(xs)[q] == xs[j]
    ensures xs[i].0 > xs[j].0 || (xs[i].0 == xs[j].0 && i < j)
  {
    var r := SortDesc(xs);
    if xs[i].0 == xs[j].0 {
      var v := xs[i].0;
      var w := WithKey(xs, v);
      SortDescStable(xs, v);
      WithKeyDistinct(xs, v);
      WithKeyOrder(r, v, p, q);
      var a, b :| 0 <= a < b < |w| && w[a] == xs[i] && w[b] == xs[j];
      if j < i {
        WithKeyOrder(xs, v, j, i);
      }
    }
  }

  /** Two sorted entries of equal key come from positions of the input in
      the same order. */
  lemma SortDescTies<T>(xs: seq<(int, T)>, a: nat, b: nat) returns (x: nat, y: nat)
    requires Distinct(xs)
    requires a < b < |SortDesc(xs)| && SortDesc(xs)[a].0 == SortDesc(xs)[b].0
    ensures x < y < |xs| && xs[x] == SortDesc(xs)[a] && xs[y] == SortDesc(xs)[b]
  {
    var r := SortDesc(xs);
    assert r[a] in multiset(r) && r[b] in multiset(r);
    x :| 0 <= x < |xs| && xs[x] == r[a];
    y :| 0 <= y < |xs| && xs[y] == r[b];
    SortDescOrder(xs, x, y, a, b);
  }
}
