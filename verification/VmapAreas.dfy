/** Address arithmetic and the address-ordered set of busy areas of the kernel virtual
    address allocator: the area list, the search tree over it and the tree descents. */
module VmapAreas {
  import opened Common

  /** A busy range [start, end) of kernel virtual addresses. */
  datatype Area = Area(start: int, end: int)

  predicate Overlaps(a: Area, b: Area) {
    a.start < b.end && b.start < a.end
  }

  /** Areas are non-empty, ordered by address and pairwise disjoint. */
  ghost predicate Sorted(s: seq<Area>) {
    && (forall i :: 0 <= i < |s| ==> 0 <= s[i].start < s[i].end)
    && (forall i, j :: 0 <= i < j < |s| ==> s[i].end <= s[j].start)
  }

  /** No busy area meets [lo, hi). */
  ghost predicate Free(s: seq<Area>, lo: int, hi: int) {
    forall a :: a in s ==> a.end <= lo || hi <= a.start
  }

  // ---------- insertion and removal in the list ----------

  /** The number of leading areas that end at or below `x`. */
  function CountBelow(s: seq<Area>, x: int): (k: nat)
    ensures k <= |s|
    ensures forall i :: 0 <= i < k ==> s[i].end <= x
    ensures k < |s| ==> x < s[k].end
  {
    if s == [] || x < s[0].end then 0 else 1 + CountBelow(s[1..], x)
  }

  function Insert(s: seq<Area>, va: Area): seq<Area> {
    var k := CountBelow(s, va.start);
    s[..k] + [va] + s[k..]
  }

  lemma InsertMembers(s: seq<Area>, va: Area)
    ensures forall a :: a in Insert(s, va) <==> a in s || a == va
  {
    var k := CountBelow(s, va.start);
    assert s == s[..k] + s[k..];
  }

  lemma InsertKeepsOrder(s: seq<Area>, va: Area)
    requires Sorted(s) && 0 <= va.start < va.end && Free(s, va.start, va.end)
    ensures Sorted(Insert(s, va)) && va !in s && |Insert(s, va)| == |s| + 1
  {
    hide Sorted;
    var k := CountBelow(s, va.start);
    ClearOfTheRest(s, va, k);
    BetweenKeepsOrder(s, va, k);
    assert va !in s by {
      assert va in s ==> va.end <= va.start || va.end <= va.start;
    }
  }

  lemma ClearOfTheRest(s: seq<Area>, va: Area, k: nat)
    requires Sorted(s) && Free(s, va.start, va.end) && k <= |s| && (k < |s| ==> va.start < s[k].end)
    ensures forall i :: k <= i < |s| ==> va.end <= s[i].start
  {
    forall i | k <= i < |s| ensures va.end <= s[i].start {
      assert s[i] in s && s[k].end <= s[i].end;
    }
  }

  lemma BetweenKeepsOrder(s: seq<Area>, va: Area, k: nat)
    requires Sorted(s) && 0 <= va.start < va.end && k <= |s|
    requires forall i :: 0 <= i < k ==> s[i].end <= va.start
    requires forall i :: k <= i < |s| ==> va.end <= s[i].start
    ensures Sorted(s[..k] + [va] + s[k..])
  {
    var r := s[..k] + [va] + s[k..];
    assert forall i :: 0 <= i < |r| ==> r[i] == if i < k then s[i] else if i == k then va else s[i - 1];
  }

  function Remove(s: seq<Area>, va: Area): (r: seq<Area>) {
    if s == [] then [] else if s[0] == va then s[1..] else [s[0]] + Remove(s[1..], va)
  }

  lemma {:induction false} RemoveKeepsOrder(s: seq<Area>, va: Area)
    requires Sorted(s)
    ensures Sorted(Remove(s, va))
    ensures forall a :: a in Remove(s, va) <==> a in s && a != va
  {
    if s != [] {
      assert s == [s[0]] + s[1..];
      assert forall a :: a in s[1..] ==> s[0].end <= a.start;
      if s[0] != va {
        RemoveKeepsOrder(s[1..], va);
        ConsKeepsOrder(s[0], Remove(s[1..], va));
      }
    }
  }

  lemma ConsKeepsOrder(a: Area, s: seq<Area>)
    requires 0 <= a.start < a.end && Sorted(s) && forall b :: b in s ==> a.end <= b.start
    ensures Sorted([a] + s)
  {
  }

  /** The place of an area in the list: what following its list links amounts to. */
  function IndexOf(s: seq<Area>, va: Area): (k: nat)
    requires va in s
    ensures k < |s| && s[k] == va
  {
    if s[0] == va then 0 else 1 + IndexOf(s[1..], va)
  }

  // ---------- alignment ----------

  predicate Aligned(x: int, a: int)
    requires a > 0
  {
    x % a == 0
  }

  /** The multiple of `a` reached by rounding up; for a power of two this is the masking form. */
  function AlignUp(x: int, a: int): (r: int)
    requires a > 0
    ensures x <= r < x + a && Aligned(r, a)
  {
    AlignUpFacts(x, a);
    (x + a - 1) / a * a
  }

  function AlignDown(x: int, a: int): (r: int)
    requires a > 0
    ensures x - a < r <= x && Aligned(r, a)
  {
    MultipleIsAligned(x / a, a);
    x / a * a
  }

  lemma MultipleIsAligned(k: int, a: int)
    requires a > 0
    ensures k * a % a == 0
  {
    var q, m := k * a / a, k * a % a;
    assert (k - q) * a == m;
    assert k - q >= 1 ==> (k - q) * a >= a;
    assert k - q <= -1 ==> (k - q) * a <= -a;
  }

  lemma AlignUpFacts(x: int, a: int)
    requires a > 0
    ensures x <= (x + a - 1) / a * a < x + a
    ensures (x + a - 1) / a * a % a == 0
  {
    var q := (x + a - 1) / a;
    assert x + a - 1 == q * a + (x + a - 1) % a;
    MultipleIsAligned(q, a);
  }

  /** Two multiples of `a` less than `a` apart are equal. */
  lemma AlignedGap(m: int, n: int, a: int)
    requires a > 0 && Aligned(m, a) && Aligned(n, a) && m < n
    ensures m + a <= n
  {
    var k := n / a - m / a;
    assert n - m == k * a;
    MultipleSign(k, a);
  }

  lemma MultipleSign(k: int, a: int)
    requires a > 0
    ensures k >= 1 ==> k * a >= a
    ensures k <= 0 ==> k * a <= 0
  {
    assert k >= 1 ==> (k - 1) * a >= 0;
  }

  lemma AlignUpIsLeast(x: int, m: int, a: int)
    requires a > 0 && Aligned(m, a) && x <= m
    ensures AlignUp(x, a) <= m
  {
    if m < AlignUp(x, a) { AlignedGap(m, AlignUp(x, a), a); }
  }

  lemma AlignDownIsGreatest(x: int, m: int, a: int)
    requires a > 0 && Aligned(m, a) && m <= x
    ensures m <= AlignDown(x, a)
  {
    if AlignDown(x, a) < m { AlignedGap(AlignDown(x, a), m, a); }
  }

  lemma AlignUpMonotone(x: int, y: int, a: int)
    requires a > 0 && x <= y
    ensures AlignUp(x, a) <= AlignUp(y, a)
  {
    AlignUpIsLeast(x, AlignUp(y, a), a);
  }

  lemma AlignedSum(m: int, n: int, a: int)
    requires a > 0 && Aligned(m, a) && Aligned(n, a)
    ensures Aligned(m + n, a) && Aligned(m - n, a)
  {
    var p, q := m / a, n / a;
    assert m == p * a && n == q * a;
    assert m + n == (p + q) * a && m - n == (p - q) * a;
    MultipleIsAligned(p + q, a);
    MultipleIsAligned(p - q, a);
  }

  /** A smaller power of two divides a larger one. */
  lemma {:induction false} PowersDivide(a: int, b: int)
    requires IsPowerOf2(a) && IsPowerOf2(b) && a <= b
    ensures a > 0 && b % a == 0
    decreases b
  {
    if a == 1 {
    } else {
      PowersDivide(a / 2, b / 2);
      var h, k := a / 2, b / 2 / (a / 2);
      assert b / 2 == k * h;
      assert b == k * a;
      MultipleIsAligned(k, a);
    }
  }

  lemma MulAssociates(k: int, c: int, a: int)
    ensures k * (c * a) == (k * c) * a
  {
  }

  /** An address aligned to a power of two is aligned to every smaller one. */
  lemma AlignedToSmaller(x: int, a: int, b: int)
    requires IsPowerOf2(a) && IsPowerOf2(b) && a <= b
    ensures a > 0 && b > 0
    ensures Aligned(x, b) ==> Aligned(x, a)
  {
    PowersDivide(a, b);
    if Aligned(x, b) {
      var k, c := x / b, b / a;
      assert x == k * b && b == c * a;
      MulAssociates(k, c, a);
      MultipleIsAligned(k * c, a);
    }
  }

  // ---------- the search tree over the list ----------

  /** The red-black tree of areas. Its shape is left arbitrary: every fact below holds of any tree
      whose in-order reading is the area list, so rebalancing is immaterial. */
  datatype Tree = Leaf | Node(left: Tree, area: Area, right: Tree)

  function InOrder(t: Tree): (s: seq<Area>) {
    match t
    case Leaf => []
    case Node(l, a, r) => InOrder(l) + [a] + InOrder(r)
  }

  /** The place of a node's area in the list slice its subtree spans. */
  function Mid(n: Tree, lo: int): int
    requires n.Node?
  {
    lo + |InOrder(n.left)|
  }

  lemma SplitSlice(s: seq<Area>, n: Tree, lo: int, hi: int)
    requires n.Node? && 0 <= lo <= hi <= |s| && s[lo..hi] == InOrder(n)
    ensures lo <= Mid(n, lo) < hi && s[Mid(n, lo)] == n.area
    ensures s[lo..Mid(n, lo)] == InOrder(n.left) && s[Mid(n, lo) + 1..hi] == InOrder(n.right)
  {
    var k := Mid(n, lo);
    assert hi - lo == |InOrder(n)|;
    assert s[k] == s[lo..hi][k - lo];
    assert s[lo..k] == s[lo..hi][..k - lo];
    assert s[k + 1..hi] == s[lo..hi][k + 1 - lo..];
  }

  lemma AllAbove(s: seq<Area>, k: nat, x: int)
    requires Sorted(s) && k < |s| && x < s[k].start
    ensures forall i :: k <= i < |s| ==> x < s[i].start
  {
    assert forall i :: k < i < |s| ==> s[k].end <= s[i].start;
  }

  lemma AllBelow(s: seq<Area>, k: nat, x: int)
    requires Sorted(s) && k < |s| && s[k].end <= x
    ensures forall i :: 0 <= i <= k ==> s[i].end <= x
  {
    assert forall i :: 0 <= i < k ==> s[i].end <= s[k].start;
  }

  /** `__find_vmap_area`: the area holding `addr`, exactly when there is one. */
  method FindVmapArea(root: Tree, addr: int) returns (r: Option<Area>)
    requires Sorted(InOrder(root))
    ensures r.Some? ==> r.value in InOrder(root) && r.value.start <= addr < r.value.end
    ensures r.None? ==> Free(InOrder(root), addr, addr + 1)
  {
    hide Sorted;
    ghost var s := InOrder(root);
    var n := root;
    ghost var lo, hi := 0, |s|;
    while n.Node?
      invariant 0 <= lo <= hi <= |s| && s[lo..hi] == InOrder(n)
      invariant forall i :: 0 <= i < lo ==> s[i].end <= addr
      invariant forall i :: hi <= i < |s| ==> addr < s[i].start
      decreases n
    {
      SplitSlice(s, n, lo, hi);
      var va := n.area;
      if addr < va.start {
        AllAbove(s, Mid(n, lo), addr);
        hi := Mid(n, lo);
        n := n.left;
      } else if addr >= va.end {
        AllBelow(s, Mid(n, lo), addr);
        lo := Mid(n, lo) + 1;
        n := n.right;
      } else {
        return Some(va);
      }
    }
    return None;
  }

  /** `__insert_vmap_area`: the slot the descent reaches. The last branch is its BUG(). */
  function InsertNode(t: Tree, va: Area): Tree {
    match t
    case Leaf => Node(Leaf, va, Leaf)
    case Node(l, a, r) =>
      if va.start < a.end then Node(InsertNode(l, va), a, r)
      else if va.end > a.start then Node(l, a, InsertNode(r, va))
      else t
  }

  lemma SortedParts(l: seq<Area>, a: Area, r: seq<Area>)
    requires Sorted(l + [a] + r)
    ensures Sorted(l) && Sorted(r)
    ensures forall b :: b in l ==> b.end <= a.start
    ensures forall b :: b in r ==> a.end <= b.start
    ensures 0 <= a.start < a.end
  {
    var s, n := l + [a] + r, |l|;
    assert l == s[..n] && a == s[n] && r == s[n + 1..];
    SortedSlices(s, n);
  }

  lemma SortedSlices(s: seq<Area>, n: nat)
    requires Sorted(s) && n < |s|
    ensures Sorted(s[..n]) && Sorted(s[n + 1..])
    ensures forall b :: b in s[..n] ==> b.end <= s[n].start
    ensures forall b :: b in s[n + 1..] ==> s[n].end <= b.start
  {
  }

  lemma CountBelowIs(s: seq<Area>, x: int, k: nat)
    requires k <= |s| && (forall i :: 0 <= i < k ==> s[i].end <= x) && (k < |s| ==> x < s[k].end)
    ensures CountBelow(s, x) == k
  {
  }

  /** The tree insertion files a free area at its place in address order. */
  lemma {:induction false} InsertNodeFilesInOrder(t: Tree, va: Area)
    requires Sorted(InOrder(t)) && 0 <= va.start < va.end && Free(InOrder(t), va.start, va.end)
    ensures InOrder(InsertNode(t, va)) == Insert(InOrder(t), va)
  {
    hide Sorted, Insert, Free;
    match t
    case Leaf =>
      InsertEmpty(va);
    case Node(l, a, r) =>
      var sl, sr := InOrder(l), InOrder(r);
      SortedParts(sl, a, sr);
      FreeParts(sl, a, sr, va.start, va.end);
      if va.start < a.end {
        InsertNodeFilesInOrder(l, va);
        InsertLeft(sl, a, sr, va);
      } else {
        InsertNodeFilesInOrder(r, va);
        InsertRight(sl, a, sr, va);
      }
  }

  lemma InsertEmpty(va: Area)
    ensures Insert([], va) == [va]
  {
  }

  lemma FreeParts(l: seq<Area>, a: Area, r: seq<Area>, lo: int, hi: int)
    requires Free(l + [a] + r, lo, hi)
    ensures Free(l, lo, hi) && Free(r, lo, hi) && (a.end <= lo || hi <= a.start)
  {
    var s := l + [a] + r;
    assert a in s && forall b :: b in l || b in r ==> b in s;
  }

  lemma InsertLeft(l: seq<Area>, a: Area, r: seq<Area>, va: Area)
    requires va.start < a.end
    ensures Insert(l, va) + [a] + r == Insert(l + [a] + r, va)
  {
    var s, k := l + [a] + r, CountBelow(l, va.start);
    assert forall i :: 0 <= i < |l| ==> s[i] == l[i];
    assert s[|l|] == a;
    CountBelowIs(s, va.start, k);
    assert s[..k] == l[..k] && s[k..] == l[k..] + [a] + r;
  }

  lemma InsertRight(l: seq<Area>, a: Area, r: seq<Area>, va: Area)
    requires a.end <= va.start && forall b :: b in l ==> b.end <= a.end
    ensures l + [a] + Insert(r, va) == Insert(l + [a] + r, va)
  {
    InsertPast(l + [a], r, va);
    assert (l + [a]) + Insert(r, va) == l + [a] + Insert(r, va);
  }

  lemma InsertPast(p: seq<Area>, r: seq<Area>, va: Area)
    requires forall b :: b in p ==> b.end <= va.start
    ensures p + Insert(r, va) == Insert(p + r, va)
  {
    var s, j := p + r, CountBelow(r, va.start);
    forall i | 0 <= i < |p| + j ensures s[i].end <= va.start {
      assert i < |p| ==> s[i] in p;
    }
    CountBelowIs(s, va.start, |p| + j);
    assert s[..|p| + j] == p + r[..j] && s[|p| + j..] == r[j..];
  }

  /** The descent at the head of an uncached allocation: a lowest area ending at or above `addr`.
      Of two areas touching at `addr` it may stop at the upper one. The answer is the area's
      place in the list, or the length of the list when there is none. */
  method FindFirstEndingAt(root: Tree, addr: int) returns (k: nat)
    requires Sorted(InOrder(root))
    ensures k <= |InOrder(root)|
    ensures k < |InOrder(root)| ==> addr <= InOrder(root)[k].end
    ensures forall i :: 0 <= i < k ==> InOrder(root)[i].end <= addr
    ensures k == |InOrder(root)| ==> forall i :: 0 <= i < k ==> InOrder(root)[i].end < addr
  {
    ghost var s := InOrder(root);
    var n, lo := root, 0;
    k := |InOrder(root)|;
    ghost var hi := |s|;
    while n.Node?
      invariant 0 <= lo <= hi <= |s| && s[lo..hi] == InOrder(n)
      invariant forall i :: 0 <= i < lo ==> s[i].end < addr
      invariant k == hi && (k < |s| ==> addr <= s[k].end)
      decreases n
    {
      SplitSlice(s, n, lo, hi);
      var tmp := n.area;
      if tmp.end >= addr {
        k := Mid(n, lo);
        if tmp.start <= addr { return; }
        hi := k;
        n := n.left;
      } else {
        lo := Mid(n, lo) + 1;
        n := n.right;
      }
    }
  }

  lemma EndsOrdered(s: seq<Area>)
    requires Sorted(s)
    ensures forall i, j :: 0 <= i < j < |s| ==> s[i].end < s[j].end
  {
  }

  lemma LeafIsEmpty(t: Tree)
    ensures t.Leaf? <==> InOrder(t) == []
  {
  }

  /** `pvm_find_next_prev`: the areas whose end addresses enclose `end`, as list places; `next` is the
      list length and `prev` is -1 when there is none. */
  method PvmFindNextPrev(root: Tree, end: int) returns (found: bool, next: int, prev: int)
    requires Sorted(InOrder(root))
    ensures found <==> InOrder(root) != []
    ensures prev == next - 1 && 0 <= next <= |InOrder(root)|
    ensures forall i :: 0 <= i < next ==> InOrder(root)[i].end <= end
    ensures forall i :: next <= i < |InOrder(root)| ==> end < InOrder(root)[i].end
  {
    hide InOrder, Sorted;
    ghost var s := InOrder(root);
    EndsOrdered(s);
    LeafIsEmpty(root);
    var n, lo := root, 0;
    ghost var hi := |s|;
    var va, at := None, 0;
    while n.Node?
      invariant 0 <= lo <= hi <= |s| && s[lo..hi] == InOrder(n)
      invariant forall i :: 0 <= i < lo ==> s[i].end <= end
      invariant forall i :: hi <= i < |s| ==> end < s[i].end
      invariant va.None? ==> lo == 0 && hi == |s|
      invariant va.Some? ==> 0 <= at < |s| && s[at] == va.value && (at == hi || at == lo - 1)
      decreases n
    {
      SplitSlice(s, n, lo, hi);
      va, at := Some(n.area), Mid(n, lo);
      if end < n.area.end {
        hi := at;
        n := n.left;
      } else if end > n.area.end {
        lo := at + 1;
        n := n.right;
      } else {
        lo, hi := at + 1, at + 1;
        break;
      }
    }
    LeafIsEmpty(n);
    if va.None? {
      return false, 0, -1;
    }
    if va.value.end > end {
      next, prev := at, at - 1;
    } else {
      next, prev := at + 1, at;
    }
    found := true;
  }
}
