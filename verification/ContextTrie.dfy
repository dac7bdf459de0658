/** The calling-context tree of the Witch profiler, as an arena: node 0 is the root, a node is named by
    its index, and children are named in the order they were added. */
module ContextTrie {
  import opened Common
  import opened Overlap

  datatype Kind = USED | RED | APPROX | DEAD

  datatype Metrics = Metrics(used: int, red: int, approx: int, dead: int) {
    function Get(k: Kind): int {
      match k
      case USED => used
      case RED => red
      case APPROX => approx
      case DEAD => dead
    }

    function Plus(k: Kind, n: int): Metrics {
      match k
      case USED => this.(used := used + n)
      case RED => this.(red := red + n)
      case APPROX => this.(approx := approx + n)
      case DEAD => this.(dead := dead + n)
    }
  }

  const ZERO := Metrics(0, 0, 0, 0)

  datatype Node = Node(frame: Frame, parent: int, children: seq<nat>, metrics: Metrics)

  type Tree = seq<Node>

  const ROOT_FRAME := Frame(0, 0)

  const EMPTY: Tree := [Node(ROOT_FRAME, -1, [], ZERO)]

  ghost predicate NodeOk(t: Tree, n: nat)
    requires n < |t|
  {
    && (if n == 0 then t[n].parent == -1 && t[n].frame == ROOT_FRAME
        else 0 <= t[n].parent < n && n in t[t[n].parent].children)
    && (forall c :: c in t[n].children ==> n < c < |t| && t[c].parent == n)
    && SiblingsDiffer(t, n)
  }

  /** No two children of a node share a frame, and none is listed twice. */
  ghost predicate SiblingsDiffer(t: Tree, n: nat)
    requires n < |t|
  {
    var cs := t[n].children;
    forall i, j :: 0 <= i < j < |cs| && cs[i] < |t| && cs[j] < |t| ==> cs[i] != cs[j] && t[cs[i]].frame != t[cs[j]].frame
  }

  ghost predicate WellFormed(t: Tree) {
    |t| > 0 && forall n :: 0 <= n < |t| ==> NodeOk(t, n)
  }

  /** The lookup in a node's hash set of children: one whose frame is equal. */
  function FindAmong(t: Tree, cs: seq<nat>, f: Frame): (r: Option<nat>)
    requires forall c :: c in cs ==> c < |t|
    ensures r.Some? ==> r.value in cs && t[r.value].frame == f
    ensures r.None? ==> forall c :: c in cs ==> t[c].frame != f
  {
    if cs == [] then None
    else
      assert cs[0] in cs && forall c :: c in cs[1..] ==> c in cs;
      if t[cs[0]].frame == f then Some(cs[0]) else FindAmong(t, cs[1..], f)
  }

  /** One step of the insertion: the child with this frame, added when there is none. */
  function AddFrame(t: Tree, n: nat, f: Frame): (r: (Tree, nat))
    requires WellFormed(t) && n < |t|
  {
    assert NodeOk(t, n);
    match FindAmong(t, t[n].children, f)
    case Some(c) => (t, c)
    case None => (t[n := t[n].(children := t[n].children + [|t|])] + [Node(f, n, [], ZERO)], |t|)
  }

  /** Every node keeps its frame and its parent. */
  ghost predicate Grows(t: Tree, t': Tree) {
    |t| <= |t'| && forall n :: 0 <= n < |t| ==> t'[n].frame == t[n].frame && t'[n].parent == t[n].parent
  }

  /** What later insertions leave in place: old nodes, and no metric of a new node. */
  ghost predicate Extends(t: Tree, t': Tree) {
    && Grows(t, t')
    && (forall n :: 0 <= n < |t| ==> t'[n].metrics == t[n].metrics)
    && (forall n :: |t| <= n < |t'| ==> t'[n].metrics == ZERO)
  }

  lemma AddFrameKeepsWellFormed(t: Tree, n: nat, f: Frame)
    requires WellFormed(t) && n < |t|
    ensures WellFormed(AddFrame(t, n, f).0)
  {
    var (t', c) := AddFrame(t, n, f);
    assert NodeOk(t, n);
    if c == |t| {
      forall i: nat | i < |t'| ensures NodeOk(t', i) {
        if i < |t| {
          assert NodeOk(t, i);
          OldNodeStaysOk(t, n, f, i);
        }
      }
    }
  }

  lemma OldNodeStaysOk(t: Tree, n: nat, f: Frame, i: nat)
    requires WellFormed(t) && n < |t| && i < |t| && NodeOk(t, i) && AddFrame(t, n, f).1 == |t|
    ensures NodeOk(AddFrame(t, n, f).0, i)
  {
    hide SiblingsDiffer, WellFormed;
    var t' := AddFrame(t, n, f).0;
    OldSiblingsDiffer(t, n, f, i);
    var cs, cs' := t[i].children, t'[i].children;
    assert forall c :: c in cs' <==> c in cs || (i == n && c == |t|);
  }

  lemma OldSiblingsDiffer(t: Tree, n: nat, f: Frame, i: nat)
    requires WellFormed(t) && n < |t| && i < |t| && AddFrame(t, n, f).1 == |t|
    ensures SiblingsDiffer(AddFrame(t, n, f).0, i)
  {
    hide WellFormed;
    var t' := AddFrame(t, n, f).0;
    ChildrenAreNodes(t, n);
    ChildrenAreNodes(t, i);
    var cs, cs' := t[i].children, t'[i].children;
    forall a, b | 0 <= a < b < |cs'| && cs'[a] < |t'| && cs'[b] < |t'|
      ensures cs'[a] != cs'[b] && t'[cs'[a]].frame != t'[cs'[b]].frame
    {
      assert cs'[a] == cs[a] && cs[a] in cs;
      if b < |cs| {
        assert cs'[b] == cs[b] && cs[b] in cs;
      }
    }
  }

  lemma ChildrenAreNodes(t: Tree, n: nat)
    requires WellFormed(t) && n < |t|
    ensures SiblingsDiffer(t, n) && forall c :: c in t[n].children ==> n < c < |t|
  {
    assert NodeOk(t, n);
  }

  lemma AddFrameExtends(t: Tree, n: nat, f: Frame)
    requires WellFormed(t) && n < |t|
    ensures var (t', c) := AddFrame(t, n, f);
            Extends(t, t') && n < c < |t'| && t'[c].frame == f && t'[c].parent == n
    ensures AddFrame(t, n, f).1 < |t| ==> AddFrame(t, n, f).0 == t
  {
    assert NodeOk(t, n);
  }

  /** A list of frames, from the first one down. */
  function AddFrames(t: Tree, n: nat, fs: seq<Frame>): (r: (Tree, nat))
    requires WellFormed(t) && n < |t|
    decreases |fs|
  {
    if fs == [] then (t, n)
    else
      AddFrameKeepsWellFormed(t, n, fs[0]);
      AddFrameExtends(t, n, fs[0]);
      var (t', c) := AddFrame(t, n, fs[0]);
      AddFrames(t', c, fs[1..])
  }

  /** The frames from below the root to a node: what following `_parent` reads back, reversed. */
  ghost function PathTo(t: Tree, n: nat): seq<Frame>
    requires WellFormed(t) && n < |t|
    decreases n
  {
    assert NodeOk(t, n);
    if n == 0 then [] else PathTo(t, t[n].parent) + [t[n].frame]
  }

  lemma {:induction false} PathsKept(t: Tree, t': Tree, n: nat)
    requires WellFormed(t) && WellFormed(t') && Grows(t, t') && n < |t|
    ensures PathTo(t', n) == PathTo(t, n)
    decreases n
  {
    assert NodeOk(t, n);
    if n > 0 {
      PathsKept(t, t', t[n].parent);
    }
  }

  /** Distinct nodes have distinct paths. */
  lemma {:induction false} PathsIdentify(t: Tree, m: nat, n: nat)
    requires WellFormed(t) && m < |t| && n < |t| && PathTo(t, m) == PathTo(t, n)
    ensures m == n
    decreases m
  {
    assert NodeOk(t, m) && NodeOk(t, n);
    if m > 0 && n > 0 {
      PathEnds(t, m);
      PathEnds(t, n);
      PathsIdentify(t, t[m].parent, t[n].parent);
      FramesIdentify(t, t[m].parent, m, n);
    }
  }

  lemma PathEnds(t: Tree, n: nat)
    requires WellFormed(t) && 0 < n < |t|
    ensures 0 <= t[n].parent < n
    ensures var path := PathTo(t, n);
            path != [] && path[..|path| - 1] == PathTo(t, t[n].parent) && path[|path| - 1] == t[n].frame
  {
    assert NodeOk(t, n);
  }

  lemma FramesIdentify(t: Tree, p: nat, m: nat, n: nat)
    requires WellFormed(t) && p < |t| && 0 < m < |t| && 0 < n < |t|
    requires t[m].parent == t[n].parent == p && t[m].frame == t[n].frame
    ensures m == n
  {
    assert NodeOk(t, m) && NodeOk(t, n) && NodeOk(t, p);
    var cs := t[p].children;
    var i, j :| 0 <= i < |cs| && cs[i] == m && 0 <= j < |cs| && cs[j] == n;
  }

  /** Inserting a list keeps the tree, moves no path, and the leaf reads the list back. */
  lemma {:induction false} AddFramesReadsBack(t: Tree, n: nat, fs: seq<Frame>)
    requires WellFormed(t) && n < |t|
    ensures var (t', leaf) := AddFrames(t, n, fs);
            && WellFormed(t') && Extends(t, t') && n <= leaf < |t'|
            && PathTo(t', leaf) == PathTo(t, n) + fs
    decreases |fs|
  {
    if fs != [] {
      AddFrameKeepsWellFormed(t, n, fs[0]);
      AddFrameExtends(t, n, fs[0]);
      var (u, c) := AddFrame(t, n, fs[0]);
      PathsKept(t, u, n);
      AddFramesReadsBack(u, c, fs[1..]);
      assert PathTo(t, n) + [fs[0]] + fs[1..] == PathTo(t, n) + fs;
    }
  }

  /** No insertion moves the path of an existing node. */
  lemma AddFramesKeepsPaths(t: Tree, n: nat, fs: seq<Frame>, m: nat)
    requires WellFormed(t) && n < |t| && m < |t|
    ensures WellFormed(AddFrames(t, n, fs).0) && m < |AddFrames(t, n, fs).0|
    ensures PathTo(AddFrames(t, n, fs).0, m) == PathTo(t, m)
  {
    AddFramesReadsBack(t, n, fs);
    PathsKept(t, AddFrames(t, n, fs).0, m);
  }

  /** In a tree that has a node for the list, the insertion adds nothing and finds that node. */
  lemma {:induction false} AddFramesFinds(t: Tree, n: nat, fs: seq<Frame>, leaf: nat)
    requires WellFormed(t) && n < |t| && leaf < |t| && PathTo(t, leaf) == PathTo(t, n) + fs
    ensures AddFrames(t, n, fs) == (t, leaf)
    decreases |fs|
  {
    if fs == [] {
      assert PathTo(t, n) + fs == PathTo(t, n);
      PathsIdentify(t, leaf, n);
    } else {
      var c := Ancestor(t, n, fs, leaf);
      assert NodeOk(t, n) && NodeOk(t, c);
      var found := FindAmong(t, t[n].children, fs[0]);
      assert found.Some?;
      assert NodeOk(t, found.value);
      PathsIdentify(t, found.value, c);
      assert PathTo(t, n) + fs == PathTo(t, c) + fs[1..];
      AddFramesFinds(t, c, fs[1..], leaf);
    }
  }

  /** The node one step below `n` on the way to `leaf`. */
  lemma {:induction false} Ancestor(t: Tree, n: nat, fs: seq<Frame>, leaf: nat) returns (c: nat)
    requires WellFormed(t) && n < |t| && leaf < |t| && fs != [] && PathTo(t, leaf) == PathTo(t, n) + fs
    ensures 0 < c < |t| && t[c].parent == n && t[c].frame == fs[0] && PathTo(t, c) == PathTo(t, n) + [fs[0]]
    decreases leaf
  {
    assert NodeOk(t, leaf);
    var k := |fs| - 1;
    var p := t[leaf].parent;
    assert PathTo(t, leaf) == PathTo(t, p) + [t[leaf].frame];
    assert PathTo(t, p) == PathTo(t, leaf)[..|PathTo(t, leaf)| - 1] == PathTo(t, n) + fs[..k];
    assert t[leaf].frame == PathTo(t, leaf)[|PathTo(t, leaf)| - 1] == (PathTo(t, n) + fs)[|PathTo(t, n)| + k] == fs[k];
    if k == 0 {
      assert PathTo(t, n) + fs[..k] == PathTo(t, n);
      PathsIdentify(t, p, n);
      c := leaf;
    } else {
      c := Ancestor(t, n, fs[..k], p);
    }
  }

  /** Repeating an insertion, with any others between, returns the same leaf and adds no node. */
  lemma AddFramesAgain(t: Tree, n: nat, fs: seq<Frame>, m: nat, gs: seq<Frame>)
    requires WellFormed(t) && n < |t| && m < |AddFrames(t, n, fs).0|
    ensures WellFormed(AddFrames(t, n, fs).0)
    ensures var (t1, leaf) := AddFrames(t, n, fs);
            var t2 := AddFrames(t1, m, gs).0;
            WellFormed(t2) && n < |t2| && AddFrames(t2, n, fs) == (t2, leaf)
  {
    AddFramesReadsBack(t, n, fs);
    var (t1, leaf) := AddFrames(t, n, fs);
    AddFramesReadsBack(t1, m, gs);
    var t2 := AddFrames(t1, m, gs).0;
    PathsKept(t1, t2, leaf);
    PathsKept(t, t1, n);
    PathsKept(t1, t2, n);
    AddFramesFinds(t2, n, fs, leaf);
  }

  lemma AppendDiffers(p: seq<Frame>, fs: seq<Frame>, gs: seq<Frame>)
    requires fs != gs
    ensures p + fs != p + gs
  {
    assert (p + fs)[|p|..] == fs && (p + gs)[|p|..] == gs;
  }

  /** Lists that differ in an address or a line end in different leaves, in one tree. */
  lemma AddFramesTellsApart(t: Tree, n: nat, fs: seq<Frame>, gs: seq<Frame>)
    requires WellFormed(t) && n < |t| && fs != gs
    ensures WellFormed(AddFrames(t, n, fs).0) && n < |AddFrames(t, n, fs).0|
    ensures var (t1, leaf) := AddFrames(t, n, fs);
            AddFrames(t1, n, gs).1 != leaf
  {
    AddFramesReadsBack(t, n, fs);
    var (t1, leaf) := AddFrames(t, n, fs);
    AddFramesReadsBack(t1, n, gs);
    var (t2, leaf2) := AddFrames(t1, n, gs);
    PathsKept(t, t1, n);
    PathsKept(t1, t2, leaf);
    AppendDiffers(PathTo(t, n), fs, gs);
  }

  /** The frames as read from the last one back. */
  function Reverse(fs: seq<Frame>): (r: seq<Frame>)
    ensures |r| == |fs| && forall i :: 0 <= i < |fs| ==> r[i] == fs[|fs| - 1 - i]
  {
    if fs == [] then [] else Reverse(fs[1..]) + [fs[0]]
  }

  /** The order addFramesToContextTree reads its list in. */
  function InOrderOf(fs: seq<Frame>, parentToChild: bool): seq<Frame> {
    if parentToChild then Reverse(fs) else fs
  }
}
