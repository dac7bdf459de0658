/** The pool of thread nodes in libmonitor: intrusive lists whose back links hold the address of the
    pointer that names the element, a free list, an array consumed from the front, and the nodes
    handed out. Memory is a map from node addresses to their fields. */
module NodePool {
  import opened Common

  const ARRAY_SIZE: nat := 150
  const MAGIC := 0x6d746e00

  type Addr = nat

  datatype Head = ThreadList | FreeList

  /** What `le_prev` holds: the address of the pointer that names the element. */
  datatype Slot = Nowhere | FirstOf(head: Head) | NextOf(node: Addr)

  /** The link fields of all nodes and the two list heads. */
  datatype Links = Links(threadFirst: Option<Addr>, freeFirst: Option<Addr>, next: map<Addr, Option<Addr>>, prev: map<Addr, Slot>)

  function First(l: Links, h: Head): Option<Addr> {
    if h == ThreadList then l.threadFirst else l.freeFirst
  }

  function SetFirst(l: Links, h: Head, v: Option<Addr>): Links {
    if h == ThreadList then l.(threadFirst := v) else l.(freeFirst := v)
  }

  /** The store through a back link. */
  function StoreAt(l: Links, slot: Slot, v: Option<Addr>): Links {
    match slot
    case Nowhere => l
    case FirstOf(h) => SetFirst(l, h, v)
    case NextOf(n) => l.(next := l.next[n := v])
  }

  /** LIST_INSERT_HEAD. */
  function InsertHead(l: Links, h: Head, elm: Addr): Links {
    var f := First(l, h);
    var l1 := l.(next := l.next[elm := f]);
    var l2 := if f.Some? then l1.(prev := l1.prev[f.value := NextOf(elm)]) else l1;
    var l3 := SetFirst(l2, h, Some(elm));
    l3.(prev := l3.prev[elm := FirstOf(h)])
  }

  /** LIST_REMOVE: the element is unhooked through its back link, without naming its list. */
  function RemoveNode(l: Links, elm: Addr): Links
    requires elm in l.next && elm in l.prev
  {
    var n := l.next[elm];
    var l1 := if n.Some? then l.(prev := l.prev[n.value := l.prev[elm]]) else l;
    StoreAt(l1, l1.prev[elm], n)
  }

  ghost predicate Distinct(s: seq<Addr>) {
    forall i, j :: 0 <= i < j < |s| ==> s[i] != s[j]
  }

  ghost function NextAt(s: seq<Addr>, i: nat): Option<Addr>
    requires i < |s|
  {
    if i + 1 < |s| then Some(s[i + 1]) else None
  }

  ghost function PrevAt(h: Head, s: seq<Addr>, i: nat): Slot
    requires i < |s|
  {
    if i == 0 then FirstOf(h) else NextOf(s[i - 1])
  }

  ghost predicate LinkedAt(l: Links, h: Head, s: seq<Addr>, i: nat)
    requires i < |s|
  {
    s[i] in l.next && s[i] in l.prev && l.next[s[i]] == NextAt(s, i) && l.prev[s[i]] == PrevAt(h, s, i)
  }

  /** From `h` the forward links read `s`, and every back link names the pointer to its element. */
  ghost predicate Linked(l: Links, h: Head, s: seq<Addr>) {
    && Distinct(s)
    && First(l, h) == (if s == [] then None else Some(s[0]))
    && (forall i :: 0 <= i < |s| ==> LinkedAt(l, h, s, i))
  }

  ghost predicate Apart(s: seq<Addr>, t: seq<Addr>) {
    forall n :: n in s ==> n !in t
  }

  ghost predicate SameAt(l: Links, l': Links, n: Addr) {
    && n in l.next && n in l.prev && n in l'.next && n in l'.prev
    && l'.next[n] == l.next[n] && l'.prev[n] == l.prev[n]
  }

  lemma LinkedMembers(l: Links, h: Head, s: seq<Addr>)
    requires Linked(l, h, s)
    ensures forall n :: n in s ==> n in l.next && n in l.prev
  {
    forall n | n in s ensures n in l.next && n in l.prev {
      var i :| 0 <= i < |s| && s[i] == n;
      assert LinkedAt(l, h, s, i);
    }
  }

  /** A list keeps its links when its head and the links of its nodes are unchanged. */
  lemma LinksUntouched(l: Links, l': Links, h: Head, s: seq<Addr>)
    requires Linked(l, h, s) && First(l', h) == First(l, h)
    requires forall n :: n in s ==> SameAt(l, l', n)
    ensures Linked(l', h, s)
  {
    forall i | 0 <= i < |s| ensures LinkedAt(l', h, s, i) {
      assert LinkedAt(l, h, s, i) && SameAt(l, l', s[i]);
    }
  }

  lemma InsertHeadLinks(l: Links, h: Head, s: seq<Addr>, elm: Addr, h': Head, t: seq<Addr>)
    requires Linked(l, h, s) && elm !in s
    requires h != h' && Linked(l, h', t) && Apart(t, s) && elm !in t
    ensures Linked(InsertHead(l, h, elm), h, [elm] + s) && Linked(InsertHead(l, h, elm), h', t)
  {
    var l', r := InsertHead(l, h, elm), [elm] + s;
    forall i | 0 <= i < |r| ensures LinkedAt(l', h, r, i) {
      if i > 0 {
        assert LinkedAt(l, h, s, i - 1) && r[i] == s[i - 1];
        assert i > 1 ==> s[i - 1] != s[0];
      }
    }
    LinkedMembers(l, h', t);
    LinksUntouched(l, l', h', t);
  }

  function Cut(s: seq<Addr>, k: nat): seq<Addr>
    requires k < |s|
  {
    s[..k] + s[k + 1..]
  }

  lemma RemoveNodeLinks(l: Links, h: Head, s: seq<Addr>, k: nat, h': Head, t: seq<Addr>)
    requires Linked(l, h, s) && k < |s|
    requires h != h' && Linked(l, h', t) && Apart(t, s)
    ensures s[k] in l.next && s[k] in l.prev
    ensures Linked(RemoveNode(l, s[k]), h, Cut(s, k)) && Linked(RemoveNode(l, s[k]), h', t)
  {
    assert LinkedAt(l, h, s, k);
    var l', r := RemoveNode(l, s[k]), Cut(s, k);
    assert forall i :: 0 <= i < |r| ==> r[i] == s[if i < k then i else i + 1];
    forall i | 0 <= i < |r| ensures LinkedAt(l', h, r, i) {
      var j := if i < k then i else i + 1;
      assert LinkedAt(l, h, s, j);
      RemovedElsewhere(l, h, s, k, j);
    }
    LinkedMembers(l, h', t);
    assert k > 0 ==> s[k - 1] in s;
    assert k + 1 < |s| ==> s[k + 1] in s;
    LinksUntouched(l, l', h', t);
  }

  /** The links of another element after a removal. */
  lemma RemovedElsewhere(l: Links, h: Head, s: seq<Addr>, k: nat, j: nat)
    requires Linked(l, h, s) && k < |s| && j < |s| && j != k && s[k] in l.next && s[k] in l.prev
    ensures var l' := RemoveNode(l, s[k]);
            && s[j] in l'.next && s[j] in l'.prev
            && l'.next[s[j]] == (if j + 1 == k then NextAt(s, k) else NextAt(s, j))
            && l'.prev[s[j]] == (if j == k + 1 then PrevAt(h, s, k) else PrevAt(h, s, j))
  {
    assert LinkedAt(l, h, s, k) && LinkedAt(l, h, s, j);
    assert j + 1 != k && k > 0 ==> s[j] != s[k - 1];
    assert j != k + 1 && k + 1 < |s| ==> s[j] != s[k + 1];
  }

  /** The loop over LIST_FIRST and LIST_NEXT visits exactly the elements, in order. */
  method Walk(l: Links, h: Head, ghost s: seq<Addr>) returns (visited: seq<Addr>)
    requires Linked(l, h, s)
    ensures visited == s
  {
    visited := [];
    var tn := First(l, h);
    while tn.Some?
      invariant |visited| <= |s| && visited == s[..|visited|]
      invariant tn == if |visited| < |s| then Some(s[|visited|]) else None
      decreases |s| - |visited|
    {
      assert LinkedAt(l, h, s, |visited|);
      visited := visited + [tn.value];
      tn := l.next[tn.value];
    }
  }

  /** The other fields of a node. */
  datatype Fields = Fields(magic: int, tid: int, finiStarted: bool, finiDone: bool)

  function Members(s: seq<Addr>): set<Addr> {
    set n | n in s
  }

  function Block(base: Addr, from: nat): (s: seq<Addr>)
    requires from <= ARRAY_SIZE
    ensures |s| == ARRAY_SIZE - from && forall i :: 0 <= i < |s| ==> s[i] == base + from + i
    ensures forall n :: n in s <==> base + from <= n < base + ARRAY_SIZE
  {
    var s := seq(ARRAY_SIZE - from, i requires 0 <= i => base + from + i);
    assert forall n :: n in s <==> base + from <= n < base + ARRAY_SIZE by {
      forall n: nat | base + from <= n < base + ARRAY_SIZE ensures n in s {
        assert s[n - base - from] == n;
      }
    }
    s
  }

  /** The pool's bookkeeping: threads linked, nodes free, nodes handed out, array not yet used. */
  datatype Parts = Parts(threads: seq<Addr>, free: seq<Addr>, inFlight: set<Addr>, tail: seq<Addr>) {
    function All(): set<Addr> {
      Members(threads) + Members(free) + inFlight + Members(tail)
    }

    ghost predicate Disjoint() {
      && Distinct(threads) && Distinct(free) && Distinct(tail)
      && Apart(threads, free) && Apart(free, threads) && Apart(threads, tail) && Apart(free, tail)
      && (forall n :: n in inFlight ==> n !in threads && n !in free && n !in tail)
    }
  }

  lemma CutMembers(s: seq<Addr>, k: nat)
    requires Distinct(s) && k < |s|
    ensures Members(s) == Members(Cut(s, k)) + {s[k]} && s[k] !in Cut(s, k) && Distinct(Cut(s, k))
    ensures forall n :: n in Cut(s, k) ==> n in s
  {
    assert s == s[..k] + [s[k]] + s[k + 1..];
  }

  lemma TakeKeepsDisjoint(p: Parts, k: nat)
    requires p.Disjoint()
    ensures k < |p.free| ==> (var p' := p.(free := Cut(p.free, k), inFlight := p.inFlight + {p.free[k]});
                              p'.Disjoint() && p'.All() == p.All() && p.free[k] !in p.inFlight)
    ensures k < |p.threads| ==> (var p' := p.(threads := Cut(p.threads, k), inFlight := p.inFlight + {p.threads[k]});
                                 p'.Disjoint() && p'.All() == p.All())
    ensures k < |p.tail| ==> (var p' := p.(tail := Cut(p.tail, k), inFlight := p.inFlight + {p.tail[k]});
                              p'.Disjoint() && p'.All() == p.All() && p.tail[k] !in p.inFlight)
  {
    if k < |p.free| { CutMembers(p.free, k); }
    if k < |p.threads| { CutMembers(p.threads, k); }
    if k < |p.tail| { CutMembers(p.tail, k); }
  }

  lemma GiveKeepsDisjoint(p: Parts, n: Addr)
    requires p.Disjoint() && n in p.inFlight
    ensures var p' := p.(free := [n] + p.free, inFlight := p.inFlight - {n});
            p'.Disjoint() && p'.All() == p.All()
    ensures var p' := p.(threads := [n] + p.threads, inFlight := p.inFlight - {n});
            p'.Disjoint() && p'.All() == p.All()
  {
  }

  /** The two lists are well linked, and lists, nodes handed out and unused array tail share no node. */
  ghost predicate Shape(l: Links, p: Parts, base: Addr, pos: nat) {
    && p.Disjoint()
    && Linked(l, ThreadList, p.threads) && Linked(l, FreeList, p.free)
    && pos <= ARRAY_SIZE && p.tail == Block(base, pos)
  }

  ghost function TookFree(p: Parts): Parts
    requires p.free != []
  {
    p.(free := Cut(p.free, 0), inFlight := p.inFlight + {p.free[0]})
  }

  ghost function TookNext(p: Parts): Parts
    requires p.tail != []
  {
    p.(tail := Cut(p.tail, 0), inFlight := p.inFlight + {p.tail[0]})
  }

  /** The node to hand out: the free list's head, else the array's next node, else a new array's first. */
  ghost function NodeToMake(p: Parts, base: Addr): Addr {
    if p.free != [] then p.free[0] else if p.tail != [] then p.tail[0] else base
  }

  ghost function AfterMake(p: Parts, base: Addr): Parts {
    if p.free != [] then TookFree(p) else if p.tail != [] then TookNext(p) else TookNext(p.(tail := Block(base, 0)))
  }

  lemma TakeFree(l: Links, p: Parts, base: Addr, pos: nat)
    requires Shape(l, p, base, pos) && First(l, FreeList).Some?
    ensures p.free != [] && First(l, FreeList) == Some(p.free[0]) && p.free[0] in l.next && p.free[0] in l.prev
    ensures Shape(RemoveNode(l, p.free[0]), TookFree(p), base, pos)
    ensures TookFree(p).All() == p.All() && p.free[0] !in p.inFlight && p.free[0] !in p.threads
  {
    TakeKeepsDisjoint(p, 0);
    RemoveNodeLinks(l, FreeList, p.free, 0, ThreadList, p.threads);
    assert p.free[0] in p.free;
  }

  lemma NoFreeNode(l: Links, p: Parts, base: Addr, pos: nat)
    requires Shape(l, p, base, pos) && First(l, FreeList).None?
    ensures p.free == []
  {
  }

  lemma TakeNext(l: Links, p: Parts, base: Addr, pos: nat)
    requires Shape(l, p, base, pos) && pos < ARRAY_SIZE
    ensures p.tail != [] && p.tail[0] == base + pos
    ensures Shape(l, TookNext(p), base, pos + 1)
    ensures TookNext(p).All() == p.All() && p.tail[0] !in p.inFlight && p.tail[0] !in p.threads
  {
    TakeKeepsDisjoint(p, 0);
    assert Block(base, pos + 1) == Cut(p.tail, 0);
    assert p.tail[0] in p.tail;
  }

  lemma StartArray(l: Links, p: Parts, base: Addr, pos: nat, start: Addr)
    requires Shape(l, p, base, pos) && pos >= ARRAY_SIZE
    requires forall n :: n in Block(start, 0) ==> n !in p.All()
    ensures p.tail == []
    ensures var p' := p.(tail := Block(start, 0));
            Shape(l, p', start, 0) && p'.All() == p.All() + Members(Block(start, 0))
  {
    assert p.tail == [];
  }

  lemma Clear(l: Links, p: Parts, base: Addr, pos: nat, tn: Addr)
    requires Shape(l, p, base, pos) && tn in p.inFlight
    ensures Shape(Cleared(l, tn), p, base, pos)
  {
    LinkedMembers(l, ThreadList, p.threads);
    LinkedMembers(l, FreeList, p.free);
    LinksUntouched(l, Cleared(l, tn), ThreadList, p.threads);
    LinksUntouched(l, Cleared(l, tn), FreeList, p.free);
  }

  /** The memset of a node, as far as the links go. */
  function Cleared(l: Links, tn: Addr): Links {
    l.(next := l.next[tn := None], prev := l.prev[tn := Nowhere])
  }

  lemma GiveThread(l: Links, p: Parts, base: Addr, pos: nat, tn: Addr)
    requires Shape(l, p, base, pos) && tn in p.inFlight
    ensures var p' := p.(threads := [tn] + p.threads, inFlight := p.inFlight - {tn});
            Shape(InsertHead(l, ThreadList, tn), p', base, pos) && p'.All() == p.All()
  {
    InsertHeadLinks(l, ThreadList, p.threads, tn, FreeList, p.free);
    GiveKeepsDisjoint(p, tn);
  }

  lemma GiveFree(l: Links, p: Parts, base: Addr, pos: nat, tn: Addr)
    requires Shape(l, p, base, pos) && tn in p.inFlight
    ensures var p' := p.(free := [tn] + p.free, inFlight := p.inFlight - {tn});
            Shape(InsertHead(l, FreeList, tn), p', base, pos) && p'.All() == p.All()
  {
    InsertHeadLinks(l, FreeList, p.free, tn, ThreadList, p.threads);
    GiveKeepsDisjoint(p, tn);
  }

  lemma TakeThread(l: Links, p: Parts, base: Addr, pos: nat, k: nat)
    requires Shape(l, p, base, pos) && k < |p.threads|
    ensures var tn := p.threads[k];
            && tn in l.next && tn in l.prev && tn !in p.inFlight
            && (var p' := p.(threads := Cut(p.threads, k), inFlight := p.inFlight + {tn});
                Shape(RemoveNode(l, tn), p', base, pos) && p'.All() == p.All())
  {
    TakeKeepsDisjoint(p, k);
    RemoveNodeLinks(l, ThreadList, p.threads, k, FreeList, p.free);
    assert p.threads[k] in p.threads;
  }

  class Pool {
    var links: Links
    var fields: map<Addr, Fields>
    var arrayBase: Addr
    var arrayPos: nat
    var threadNum: int
    var inExitCleanup: bool
    ghost var parts: Parts

    ghost predicate Valid()
      reads this
    {
      && Shape(links, parts, arrayBase, arrayPos)
      && (forall n :: n in parts.threads || n in parts.inFlight ==> n in fields)
    }

    constructor (base: Addr)
      ensures Valid() && parts == Parts([], [], {}, Block(base, 0)) && !inExitCleanup && threadNum == 0
    {
      links, fields := Links(None, None, map[], map[]), map[];
      arrayBase, arrayPos, threadNum, inExitCleanup := base, 0, 0, false;
      parts := Parts([], [], {}, Block(base, 0));
    }

    /** monitor_make_thread_node: the head of the free list, else the next array node, else the first of
        a new array, whose memory `base` is none of the pool's. The node handed out was in no list and
        had not been handed out. */
    method MakeThreadNode(base: Addr) returns (tn: Addr)
      requires Valid()
      requires forall n :: n in Block(base, 0) ==> n !in parts.All()
      modifies this
      ensures Valid() && inExitCleanup == old(inExitCleanup) && threadNum == old(threadNum)
      ensures tn !in old(parts.inFlight) && tn !in old(parts.threads)
      ensures tn == NodeToMake(old(parts), base) && parts == AfterMake(old(parts), base)
      ensures if old(parts.free) != [] || old(parts.tail) != [] then parts.All() == old(parts.All())
              else tn == base && parts.All() == old(parts.All()) + Members(Block(base, 0))
      ensures old(parts.free) != [] ==> tn in old(parts.free) && parts.tail == old(parts.tail)
      ensures fields == old(fields)[tn := Fields(MAGIC, -1, false, false)]
    {
      hide Shape, Block, Members;
      var f := First(links, FreeList);
      if f.Some? {
        tn := f.value;
        TakeFree(links, parts, arrayBase, arrayPos);
        links, parts := RemoveNode(links, tn), TookFree(parts);
      } else {
        NoFreeNode(links, parts, arrayBase, arrayPos);
        if arrayPos >= ARRAY_SIZE {
          StartArray(links, parts, arrayBase, arrayPos, base);
          arrayBase, arrayPos, parts := base, 0, parts.(tail := Block(base, 0));
        }
        tn := arrayBase + arrayPos;
        TakeNext(links, parts, arrayBase, arrayPos);
        arrayPos, parts := arrayPos + 1, TookNext(parts);
      }
      Clear(links, parts, arrayBase, arrayPos, tn);
      links, fields := Cleared(links, tn), fields[tn := Fields(MAGIC, -1, false, false)];
    }

    /** monitor_link_thread_node: refused, with nothing changed, once exit cleanup has begun. */
    method LinkThreadNode(tn: Addr) returns (refused: bool)
      requires Valid() && tn in parts.inFlight
      modifies this`links, this`fields, this`threadNum, this`parts
      ensures Valid() && refused == inExitCleanup
      ensures refused ==> parts == old(parts) && fields == old(fields)
      ensures !refused ==> (parts == old(parts).(threads := [tn] + old(parts.threads), inFlight := old(parts.inFlight) - {tn})
                            && parts.All() == old(parts.All())
                            && threadNum == old(threadNum) + 1 && fields == old(fields)[tn := old(fields)[tn].(tid := threadNum)])
    {
      if inExitCleanup {
        return true;
      }
      threadNum := threadNum + 1;
      fields := fields[tn := fields[tn].(tid := threadNum)];
      GiveThread(links, parts, arrayBase, arrayPos, tn);
      links := InsertHead(links, ThreadList, tn);
      parts := parts.(threads := [tn] + parts.threads, inFlight := parts.inFlight - {tn});
      return false;
    }

    /** monitor_unlink_thread_node: to the free list, or only marked as finished in exit cleanup. */
    method UnlinkThreadNode(tn: Addr, ghost k: nat)
      requires Valid() && k < |parts.threads| && parts.threads[k] == tn
      modifies this`links, this`fields, this`parts
      ensures Valid() && parts.All() == old(parts.All())
      ensures inExitCleanup ==> (parts == old(parts) && links == old(links)
                                 && fields == old(fields)[tn := old(fields)[tn].(finiStarted := true, finiDone := true)])
      ensures !inExitCleanup ==> (parts == old(parts).(threads := Cut(old(parts.threads), k), free := [tn] + old(parts.free))
                                  && fields == old(fields)[tn := Fields(0, 0, false, false)])
    {
      if inExitCleanup {
        fields := fields[tn := fields[tn].(finiStarted := true, finiDone := true)];
        return;
      }
      TakeThread(links, parts, arrayBase, arrayPos, k);
      ghost var p := parts.(threads := Cut(parts.threads, k), inFlight := parts.inFlight + {tn});
      links := RemoveNode(links, tn);
      Clear(links, p, arrayBase, arrayPos, tn);
      links, fields := Cleared(links, tn), fields[tn := Fields(0, 0, false, false)];
      GiveFree(links, p, arrayBase, arrayPos, tn);
      links := InsertHead(links, FreeList, tn);
      assert parts.inFlight + {tn} - {tn} == parts.inFlight;
      parts := p.(free := [tn] + p.free, inFlight := p.inFlight - {tn});
    }

    /** The start of monitor_thread_shootdown: from here on the thread list is frozen. */
    method BeginExit()
      requires Valid()
      modifies this`inExitCleanup
      ensures Valid() && inExitCleanup
    {
      inExitCleanup := true;
    }

    /** The unlocked walk of the shootdown: exactly the linked threads, in list order. */
    method WalkThreads() returns (visited: seq<Addr>)
      requires Valid()
      ensures visited == parts.threads
    {
      visited := Walk(links, ThreadList, parts.threads);
    }
  }
}
