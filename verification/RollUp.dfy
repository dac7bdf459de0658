/** The roll-up of the context tree: a node whose address is its parent's is pruned with all below it,
    and every other node receives the sum over the nodes below it that no pruning cuts off. */
module RollUp {
  import opened Overlap
  import opened ContextTrie
  import opened Attribution

  /** The pruning test; the root has no parent. */
  predicate Pruned(t: Tree, n: nat)
    requires n < |t|
  {
    && 0 <= t[n].parent < |t|
    && t[n].frame.addr == t[t[n].parent].frame.addr
  }

  /** `i` is `n` or below it with nothing pruned on the way. */
  ghost predicate Reaches(t: Tree, n: nat, i: nat)
    requires WellFormed(t) && i < |t|
    decreases i
  {
    assert NodeOk(t, i);
    i == n || (i > n && !Pruned(t, i) && Reaches(t, n, t[i].parent))
  }

  ghost function Under(t: Tree, n: nat): set<nat>
    requires WellFormed(t)
  {
    set i: nat | i < |t| && Reaches(t, n, i)
  }

  lemma {:induction false} SiblingsApart(t: Tree, n: nat, c: nat, d: nat, i: nat)
    requires WellFormed(t) && c < |t| && d < |t| && i < |t| && c != d
    requires t[c].parent == n && t[d].parent == n && n < c && n < d
    ensures !(Reaches(t, c, i) && Reaches(t, d, i))
    decreases i
  {
    assert NodeOk(t, i);
    if i != c && i != d && i > 0 {
      SiblingsApart(t, n, c, d, t[i].parent);
    } else if i == c || i == d {
      assert !Reaches(t, c, n) && !Reaches(t, d, n);
    }
  }

  /** Below an unpruned child is below its parent. */
  lemma {:induction false} ReachesThroughChild(t: Tree, n: nat, c: nat, i: nat)
    requires WellFormed(t) && c < |t| && i < |t| && t[c].parent == n < c && !Pruned(t, c) && Reaches(t, c, i)
    ensures Reaches(t, n, i)
    decreases i
  {
    assert NodeOk(t, i);
    if i != c {
      ReachesThroughChild(t, n, c, t[i].parent);
    }
  }

  /** The child of `n` that `i` lies below. */
  lemma {:induction false} ChildTowards(t: Tree, n: nat, i: nat) returns (c: nat)
    requires WellFormed(t) && n < |t| && i < |t| && Reaches(t, n, i) && i != n
    ensures c in t[n].children && c < |t| && !Pruned(t, c) && Reaches(t, c, i) && i >= c
    decreases i
  {
    assert NodeOk(t, i);
    if t[i].parent == n {
      c := i;
    } else {
      c := ChildTowards(t, n, t[i].parent);
    }
  }

  /** The nodes below the first `j` children, and the sum over them child by child. */
  ghost function BelowFirst(t: Tree, n: nat, j: nat): set<nat>
    requires WellFormed(t) && n < |t| && j <= |t[n].children|
  {
    if j == 0 then {}
    else
      assert NodeOk(t, n) && t[n].children[j - 1] in t[n].children;
      var c := t[n].children[j - 1];
      BelowFirst(t, n, j - 1) + if Pruned(t, c) then {} else Under(t, c)
  }

  ghost function SumFirst(t: Tree, k: Kind, n: nat, j: nat): int
    requires WellFormed(t) && n < |t| && j <= |t[n].children|
  {
    if j == 0 then 0
    else
      assert NodeOk(t, n) && t[n].children[j - 1] in t[n].children;
      var c := t[n].children[j - 1];
      SumFirst(t, k, n, j - 1) + if Pruned(t, c) then 0 else Sum(t, k, Under(t, c), |t|)
  }

  ghost predicate InFirst(t: Tree, n: nat, j: nat, i: nat)
    requires WellFormed(t) && n < |t| && j <= |t[n].children| && i < |t|
  {
    exists a :: 0 <= a < j && ChildReaches(t, n, a, i)
  }

  ghost predicate ChildReaches(t: Tree, n: nat, a: nat, i: nat)
    requires WellFormed(t) && n < |t| && a < |t[n].children| && i < |t|
  {
    var c := t[n].children[a];
    c < |t| && !Pruned(t, c) && Reaches(t, c, i)
  }

  lemma {:induction false} BelowFirstMembers(t: Tree, n: nat, j: nat)
    requires WellFormed(t) && n < |t| && j <= |t[n].children|
    ensures forall i: nat :: i in BelowFirst(t, n, j) <==> i < |t| && InFirst(t, n, j, i)
    decreases j
  {
    if j > 0 {
      BelowFirstMembers(t, n, j - 1);
      assert NodeOk(t, n) && t[n].children[j - 1] in t[n].children;
      forall i: nat ensures i in BelowFirst(t, n, j) <==> i < |t| && InFirst(t, n, j, i) {
        if i < |t| && InFirst(t, n, j, i) {
          var a :| 0 <= a < j && ChildReaches(t, n, a, i);
          assert a < j - 1 ==> InFirst(t, n, j - 1, i);
        }
        if i in BelowFirst(t, n, j) {
          if i in BelowFirst(t, n, j - 1) {
            var a :| 0 <= a < j - 1 && ChildReaches(t, n, a, i);
          } else {
            assert ChildReaches(t, n, j - 1, i);
          }
        }
      }
    }
  }

  lemma ChildApart(t: Tree, n: nat, j: nat)
    requires WellFormed(t) && n < |t| && j < |t[n].children|
    ensures t[n].children[j] < |t| && BelowFirst(t, n, j) !! Under(t, t[n].children[j])
  {
    var cs := t[n].children;
    assert NodeOk(t, n) && cs[j] in cs;
    BelowFirstMembers(t, n, j);
    forall i | i in BelowFirst(t, n, j) ensures i !in Under(t, cs[j]) {
      var a :| 0 <= a < j && ChildReaches(t, n, a, i);
      assert cs[a] in cs;
      SiblingsApart(t, n, cs[a], cs[j], i);
    }
  }

  lemma {:induction false} SumUnion(t: Tree, k: Kind, s: set<nat>, u: set<nat>, n: nat)
    requires n <= |t| && s !! u
    ensures Sum(t, k, s + u, n) == Sum(t, k, s, n) + Sum(t, k, u, n)
    decreases n
  {
    if n > 0 {
      SumUnion(t, k, s, u, n - 1);
    }
  }

  lemma {:induction false} SumOne(t: Tree, k: Kind, m: nat, n: nat)
    requires n <= |t| && m < |t|
    ensures Sum(t, k, {m}, n) == if m < n then t[m].metrics.Get(k) else 0
    decreases n
  {
    if n > 0 {
      SumOne(t, k, m, n - 1);
    }
  }

  lemma {:induction false} SumNone(t: Tree, k: Kind, n: nat)
    requires n <= |t|
    ensures Sum(t, k, {}, n) == 0
    decreases n
  {
    if n > 0 {
      SumNone(t, k, n - 1);
    }
  }

  lemma {:induction false} SumFirstIsSum(t: Tree, k: Kind, n: nat, j: nat)
    requires WellFormed(t) && n < |t| && j <= |t[n].children|
    ensures SumFirst(t, k, n, j) == Sum(t, k, BelowFirst(t, n, j), |t|)
    decreases j
  {
    SumNone(t, k, |t|);
    if j > 0 {
      SumFirstIsSum(t, k, n, j - 1);
      ChildApart(t, n, j - 1);
      var c := t[n].children[j - 1];
      if Pruned(t, c) {
        assert BelowFirst(t, n, j) == BelowFirst(t, n, j - 1);
      } else {
        SumUnion(t, k, BelowFirst(t, n, j - 1), Under(t, c), |t|);
      }
    }
  }

  /** A node, and what lies below its unpruned children. */
  lemma UnderIsChildren(t: Tree, n: nat)
    requires WellFormed(t) && n < |t|
    ensures Under(t, n) == {n} + BelowFirst(t, n, |t[n].children|) && n !in BelowFirst(t, n, |t[n].children|)
  {
    var cs := t[n].children;
    BelowFirstMembers(t, n, |cs|);
    assert NodeOk(t, n);
    forall i: nat | i < |t| ensures InFirst(t, n, |cs|, i) <==> i != n && Reaches(t, n, i) {
      if i != n && Reaches(t, n, i) {
        var c := ChildTowards(t, n, i);
        var a :| 0 <= a < |cs| && cs[a] == c;
        assert ChildReaches(t, n, a, i);
      }
      if InFirst(t, n, |cs|, i) {
        var a :| 0 <= a < |cs| && ChildReaches(t, n, a, i);
        assert cs[a] in cs;
        ReachesThroughChild(t, n, cs[a], i);
        assert Reaches(t, cs[a], i) ==> i >= cs[a];
      }
    }
  }

  lemma SumUnder(t: Tree, k: Kind, n: nat)
    requires WellFormed(t) && n < |t|
    ensures Sum(t, k, Under(t, n), |t|) == t[n].metrics.Get(k) + SumFirst(t, k, n, |t[n].children|)
  {
    var below := BelowFirst(t, n, |t[n].children|);
    UnderIsChildren(t, n);
    SumOne(t, k, n, |t|);
    SumUnion(t, k, {n}, below, |t|);
    SumFirstIsSum(t, k, n, |t[n].children|);
  }

  ghost predicate SameShape(t: Tree, t': Tree) {
    |t'| == |t| && forall n :: 0 <= n < |t| ==> t'[n].(metrics := ZERO) == t[n].(metrics := ZERO)
  }

  /** Node `m` of `t'` holds what `t` holds below `m`, redundant and used bytes; other metrics stand. */
  ghost predicate RolledAt(t: Tree, t': Tree, m: nat)
    requires WellFormed(t) && m < |t| && |t'| == |t|
  {
    t'[m] == t[m].(metrics := t[m].metrics.(red := Sum(t, RED, Under(t, m), |t|), used := Sum(t, USED, Under(t, m), |t|)))
  }

  /** Exactly the nodes of `s` are rolled up. */
  ghost predicate Rolled(t: Tree, t': Tree, s: set<nat>)
    requires WellFormed(t)
  {
    && SameShape(t, t')
    && forall m: nat :: m < |t| ==> if m in s then RolledAt(t, t', m) else t'[m] == t[m]
  }

  lemma ShapeKeepsWellFormed(t: Tree, t': Tree)
    requires WellFormed(t) && SameShape(t, t')
    ensures WellFormed(t')
  {
    forall n: nat | n < |t'| ensures NodeOk(t', n) {
      assert NodeOk(t, n);
      assert t'[n].(metrics := ZERO) == t[n].(metrics := ZERO);
      assert n > 0 ==> t'[t[n].parent].(metrics := ZERO) == t[t[n].parent].(metrics := ZERO);
      SiblingsByShape(t, t', n);
    }
  }

  lemma SiblingsByShape(t: Tree, t': Tree, n: nat)
    requires SameShape(t, t') && n < |t| && SiblingsDiffer(t, n)
    ensures SiblingsDiffer(t', n)
  {
    assert t'[n].(metrics := ZERO) == t[n].(metrics := ZERO);
    var cs := t[n].children;
    forall i, j | 0 <= i < j < |cs| && cs[i] < |t| && cs[j] < |t| ensures cs[i] != cs[j] && t'[cs[i]].frame != t'[cs[j]].frame {
      assert t'[cs[i]].(metrics := ZERO) == t[cs[i]].(metrics := ZERO) && t'[cs[j]].(metrics := ZERO) == t[cs[j]].(metrics := ZERO);
    }
  }

  lemma {:induction false} ShapeKeepsReach(t: Tree, t': Tree, n: nat, i: nat)
    requires WellFormed(t) && WellFormed(t') && SameShape(t, t') && i < |t|
    ensures Reaches(t', n, i) == Reaches(t, n, i) && Pruned(t', i) == Pruned(t, i)
    decreases i
  {
    assert NodeOk(t, i) && t'[i].(metrics := ZERO) == t[i].(metrics := ZERO);
    if i > 0 {
      assert t'[t[i].parent].(metrics := ZERO) == t[t[i].parent].(metrics := ZERO);
      ShapeKeepsReach(t, t', n, t[i].parent);
    }
  }

  lemma ShapeKeepsUnder(t: Tree, t': Tree, n: nat)
    requires WellFormed(t) && SameShape(t, t')
    ensures WellFormed(t') && Under(t', n) == Under(t, n)
  {
    ShapeKeepsWellFormed(t, t');
    forall i: nat | i < |t| ensures Reaches(t', n, i) == Reaches(t, n, i) {
      ShapeKeepsReach(t, t', n, i);
    }
  }

  lemma {:induction false} ReachesTransitive(t: Tree, n: nat, m: nat, i: nat)
    requires WellFormed(t) && m < |t| && i < |t| && Reaches(t, n, m) && Reaches(t, m, i)
    ensures Reaches(t, n, i)
    decreases i
  {
    assert NodeOk(t, i);
    if i != m {
      assert m >= n;
      ReachesTransitive(t, n, m, t[i].parent);
    }
  }

  lemma {:induction false} SumAgrees(t: Tree, t': Tree, k: Kind, s: set<nat>, n: nat)
    requires |t'| == |t| && n <= |t| && forall i :: i in s && i < |t| ==> t'[i].metrics == t[i].metrics
    ensures Sum(t', k, s, n) == Sum(t, k, s, n)
    decreases n
  {
    if n > 0 {
      SumAgrees(t, t', k, s, n - 1);
    }
  }

  /** What the call for one child adds, the earlier children being done. */
  lemma ChildRolled(t: Tree, t1: Tree, t2: Tree, n: nat, j: nat)
    requires WellFormed(t) && n < |t| && j < |t[n].children| && WellFormed(t1)
    requires Rolled(t, t1, BelowFirst(t, n, j))
    requires t[n].children[j] < |t| && !Pruned(t, t[n].children[j]) && Rolled(t1, t2, Under(t1, t[n].children[j]))
    ensures Rolled(t, t2, BelowFirst(t, n, j + 1))
    ensures Sum(t1, RED, Under(t1, t[n].children[j]), |t|) == Sum(t, RED, Under(t, t[n].children[j]), |t|)
    ensures Sum(t1, USED, Under(t1, t[n].children[j]), |t|) == Sum(t, USED, Under(t, t[n].children[j]), |t|)
  {
    hide WellFormed, Sum, Under, Pruned;
    var c, done := t[n].children[j], BelowFirst(t, n, j);
    ChildApart(t, n, j);
    ShapeKeepsUnder(t, t1, c);
    forall m: nat | m in Under(t, c) ensures m < |t| && Under(t1, m) == Under(t, m)
      && forall k :: Sum(t1, k, Under(t, m), |t|) == Sum(t, k, Under(t, m), |t|)
    {
      UnderInside(t, c, m);
      ShapeKeepsUnder(t, t1, m);
      forall k ensures Sum(t1, k, Under(t, m), |t|) == Sum(t, k, Under(t, m), |t|) {
        SumAgrees(t, t1, k, Under(t, m), |t|);
      }
    }
    UnderInside(t, c, c);
    assert BelowFirst(t, n, j + 1) == done + Under(t, c);
  }

  lemma UnderInside(t: Tree, n: nat, m: nat)
    requires WellFormed(t) && n < |t| && (m in Under(t, n) || m == n)
    ensures m < |t| && m in Under(t, n) && Under(t, m) <= Under(t, n)
  {
    assert Reaches(t, n, n);
    forall i | i in Under(t, m) ensures i in Under(t, n) {
      ReachesTransitive(t, n, m, i);
    }
  }

  /** The node itself, when all its children are done. */
  lemma NodeRolled(t: Tree, t1: Tree, n: nat)
    requires WellFormed(t) && n < |t| && Rolled(t, t1, BelowFirst(t, n, |t[n].children|))
    ensures var m := t1[n].metrics;
            var sum := m.(red := m.red + SumFirst(t, RED, n, |t[n].children|), used := m.used + SumFirst(t, USED, n, |t[n].children|));
            && Rolled(t, t1[n := t1[n].(metrics := sum)], Under(t, n))
            && sum.red == Sum(t, RED, Under(t, n), |t|) && sum.used == Sum(t, USED, Under(t, n), |t|)
  {
    hide WellFormed, Sum, Under, SumFirst, BelowFirst;
    UnderIsChildren(t, n);
    SumUnder(t, RED, n);
    SumUnder(t, USED, n);
  }

  lemma RollStart(t: Tree, n: nat)
    requires WellFormed(t) && n < |t|
    ensures Rolled(t, t, {}) && BelowFirst(t, n, 0) == {} && SumFirst(t, RED, n, 0) == SumFirst(t, USED, n, 0) == 0
  {
  }

  lemma RolledKeepsWellFormed(t: Tree, t': Tree, s: set<nat>)
    requires WellFormed(t) && Rolled(t, t', s)
    ensures WellFormed(t') && |t'| == |t|
  {
    ShapeKeepsWellFormed(t, t');
  }

  lemma ChildVisited(t: Tree, t1: Tree, n: nat, j: nat)
    requires WellFormed(t) && WellFormed(t1) && n < |t| && j < |t[n].children| && Rolled(t, t1, BelowFirst(t, n, j))
    ensures n < t[n].children[j] < |t| && |t1| == |t| && Pruned(t1, t[n].children[j]) == Pruned(t, t[n].children[j])
    ensures t1[n].children == t[n].children
  {
    assert NodeOk(t, n) && t[n].children[j] in t[n].children;
    assert t1[n].(metrics := ZERO) == t[n].(metrics := ZERO);
    ShapeKeepsReach(t, t1, n, t[n].children[j]);
  }

  lemma PrunedChild(t: Tree, t1: Tree, t2: Tree, n: nat, j: nat)
    requires WellFormed(t) && WellFormed(t1) && n < |t| && j < |t[n].children| && t[n].children[j] < |t|
    requires Rolled(t, t1, BelowFirst(t, n, j)) && Rolled(t1, t2, {}) && Pruned(t, t[n].children[j])
    ensures Rolled(t, t2, BelowFirst(t, n, j + 1)) && t2 == t1
  {
    hide Reaches, Sum;
    assert t2 == t1;
  }

  lemma SumFirstNext(t: Tree, k: Kind, n: nat, j: nat)
    requires WellFormed(t) && n < |t| && j < |t[n].children| && t[n].children[j] < |t|
    ensures SumFirst(t, k, n, j + 1)
            == SumFirst(t, k, n, j) + if Pruned(t, t[n].children[j]) then 0 else Sum(t, k, Under(t, t[n].children[j]), |t|)
  {
  }
}
