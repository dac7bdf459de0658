/** vread of vmalloc.c: a reader over the vmap areas that fills what lies between them with zeros, and
    its partner, the definition of every byte it should show. */
module VRead {
  import opened Common

  /** What vmalloc_to_page and the page contents say about an address. */
  datatype Memory = Memory(present: int -> bool, byte: int -> Byte)

  /** A vmap area; `vm` says that it carries a vm_struct, whose get_vm_area_size is `size`. */
  datatype Entry = Entry(start: int, end: int, vm: bool, size: int, ioremap: bool)

  ghost predicate Sorted(list: seq<Entry>) {
    && (forall i :: 0 <= i < |list| ==>
          0 <= list[i].start && 0 <= list[i].size && list[i].start + list[i].size <= list[i].end < ADDRESS_SPACE)
    && (forall i, j :: 0 <= i < j < |list| ==> list[i].end <= list[j].start)
  }

  predicate Covers(e: Entry, x: int) {
    e.vm && e.start <= x < e.start + e.size
  }

  ghost predicate Readable(list: seq<Entry>, x: int) {
    exists k :: 0 <= k < |list| && Covers(list[k], x) && !list[k].ioremap
  }

  function PageByte(m: Memory, x: int): Byte {
    if m.present(x / PAGE_SIZE) then m.byte(x) else 0
  }

  /** The byte a reader should be shown for an address: memory's in a live area that is no I/O mapping
      and whose page is present, else zero. */
  ghost function Shown(list: seq<Entry>, m: Memory, x: int): Byte {
    if x < ADDRESS_SPACE && Readable(list, x) then PageByte(m, x) else 0
  }

  /** Some live area ends above an address. */
  ghost predicate EndsAbove(list: seq<Entry>, x: int) {
    exists k :: 0 <= k < |list| && AreaAbove(list[k], x)
  }

  predicate AreaAbove(e: Entry, x: int) {
    e.vm && x < e.start + e.size
  }

  lemma SamePage(x: int, y: int)
    requires 0 <= x <= y && x % PAGE_SIZE + (y - x) < PAGE_SIZE
    ensures x / PAGE_SIZE == y / PAGE_SIZE
  {
  }

  /** aligned_vread: page by page. */
  method AlignedVRead(m: Memory, buf: array<Byte>, at: nat, addr: nat, count: nat)
    requires at + count <= buf.Length
    modifies buf
    ensures forall j :: 0 <= j < buf.Length ==> buf[j] == if at <= j < at + count then PageByte(m, addr + (j - at)) else old(buf[j])
  {
    var pos, left := 0, count;
    while left > 0
      invariant 0 <= left && pos + left == count
      invariant forall j :: 0 <= j < buf.Length ==> buf[j] == if at <= j < at + pos then PageByte(m, addr + (j - at)) else old(buf[j])
    {
      var a := addr + pos;
      var offset := a % PAGE_SIZE;
      var length := PAGE_SIZE - offset;
      if length > left {
        length := left;
      }
      var p := m.present(a / PAGE_SIZE);
      var i := 0;
      while i < length
        invariant 0 <= i <= length
        invariant forall j :: 0 <= j < buf.Length ==>
          buf[j] == if at <= j < at + pos + i then PageByte(m, addr + (j - at)) else old(buf[j])
      {
        SamePage(a, a + i);
        assert addr + (at + pos + i - at) == a + i;
        buf[at + pos + i] := if p then m.byte(a + i) else 0;
        i := i + 1;
      }
      pos, left := pos + length, left - length;
    }
  }

  /** memset(buf + at, 0, count). */
  method Zero(buf: array<Byte>, at: nat, count: nat)
    requires at + count <= buf.Length
    modifies buf
    ensures forall j :: 0 <= j < buf.Length ==> buf[j] == if at <= j < at + count then 0 else old(buf[j])
  {
    for i := at to at + count
      invariant forall j :: 0 <= j < buf.Length ==> buf[j] == if at <= j < i then 0 else old(buf[j])
    {
      buf[i] := 0;
    }
  }

  /** The first `pos` bytes are as they should be, the others as they were. */
  ghost predicate Filled(list: seq<Entry>, m: Memory, addr: nat, buf: seq<Byte>, was: seq<Byte>, pos: nat) {
    && |buf| == |was|
    && (forall j :: 0 <= j < |buf| ==> buf[j] == if j < pos then Shown(list, m, addr + j) else was[j])
  }

  /** Between the areas already passed and the next one nothing is readable. */
  lemma HoleIsZero(list: seq<Entry>, m: Memory, i: nat, x: int)
    requires Sorted(list) && i <= |list|
    requires forall k :: 0 <= k < i ==> !AreaAbove(list[k], x)
    requires i < |list| ==> x < list[i].start
    ensures Shown(list, m, x) == 0
  {
    assert forall k :: i < k < |list| ==> list[i].end <= list[k].start;
  }

  lemma InsideArea(list: seq<Entry>, m: Memory, i: nat, x: int)
    requires Sorted(list) && i < |list| && Covers(list[i], x)
    ensures Shown(list, m, x) == if list[i].ioremap then 0 else PageByte(m, x)
  {
    forall k | 0 <= k < |list| && Covers(list[k], x) ensures k == i {
    }
  }

  /** The areas passed: none reaches past the reading position, and the position has moved exactly when
      one of them ended above the start. */
  ghost predicate Passed(list: seq<Entry>, i: nat, addr: nat, pos: nat, left: int)
    requires i <= |list|
  {
    && (left > 0 ==> forall k :: 0 <= k < i ==> !AreaAbove(list[k], addr + pos))
    && (pos > 0 ==> exists k :: 0 <= k < i && AreaAbove(list[k], addr))
  }

  /** The zero-fill up to the area's start, byte by byte. */
  method FillHole(list: seq<Entry>, m: Memory, buf: array<Byte>, addr: nat, pos0: nat, left0: int, i: nat, ghost was: seq<Byte>)
    returns (pos: nat, left: int)
    requires Sorted(list) && i < |list| && 0 < left0 && pos0 + left0 <= buf.Length
    requires Filled(list, m, addr, buf[..], was, pos0)
    requires forall k :: 0 <= k < i ==> !AreaAbove(list[k], addr + pos0)
    modifies buf
    ensures 0 <= left && pos + left == pos0 + left0 && Filled(list, m, addr, buf[..], was, pos)
    ensures pos >= pos0 && (pos == pos0 ==> list[i].start <= addr + pos)
    ensures left > 0 ==> list[i].start <= addr + pos && (pos > pos0 ==> addr + pos == list[i].start)
  {
    pos, left := pos0, left0;
    while addr + pos < list[i].start
      invariant 0 <= left && pos0 <= pos && pos + left == pos0 + left0
      invariant Filled(list, m, addr, buf[..], was, pos)
      invariant pos > pos0 ==> addr + pos <= list[i].start
      decreases list[i].start - (addr + pos)
    {
      if left == 0 {
        return;
      }
      HoleIsZero(list, m, i, addr + pos);
      buf[pos] := 0;
      pos, left := pos + 1, left - 1;
    }
  }

  /** The bytes of one area: read page by page, or zeros for an I/O mapping. */
  method CopyArea(list: seq<Entry>, m: Memory, buf: array<Byte>, addr: nat, pos: nat, n: nat, i: nat, ghost was: seq<Byte>)
    requires Sorted(list) && i < |list| && list[i].vm && pos + n <= buf.Length
    requires list[i].start <= addr + pos && addr + pos + n <= list[i].start + list[i].size
    requires Filled(list, m, addr, buf[..], was, pos)
    modifies buf
    ensures Filled(list, m, addr, buf[..], was, pos + n)
  {
    if !list[i].ioremap {
      AlignedVRead(m, buf, pos, addr + pos, n);
    } else {
      Zero(buf, pos, n);
    }
    forall j | pos <= j < pos + n ensures buf[j] == Shown(list, m, addr + j) {
      InsideArea(list, m, i, addr + j);
    }
  }

  /** Past the last position nothing is readable: the areas are passed, or the address space ends. */
  lemma NothingAfter(list: seq<Entry>, m: Memory, i: nat, addr: nat, pos: nat, left: int)
    requires Sorted(list) && i <= |list| && Passed(list, i, addr, pos, left)
    requires left == 0 || i == |list|
    ensures forall x :: (left > 0 && x >= addr + pos) || x >= ADDRESS_SPACE ==> Shown(list, m, x) == 0
  {
    forall x | left > 0 && x >= addr + pos ensures Shown(list, m, x) == 0 {
      assert forall k :: 0 <= k < |list| ==> !AreaAbove(list[k], addr + pos);
    }
  }

  /** What vread answers. */
  ghost function Answer(list: seq<Entry>, addr: nat, count: nat): nat {
    if EndsAbove(list, addr) then count else 0
  }

  /** vread: 0 with the buffer untouched when nothing was asked for or no live area ends above `addr`;
      else `count`, and every byte of the buffer is the one that should be shown. */
  method VRead(list: seq<Entry>, m: Memory, buf: array<Byte>, addr: nat, count: nat) returns (r: nat)
    requires Sorted(list) && addr < ADDRESS_SPACE && count < ADDRESS_SPACE && count <= buf.Length
    modifies buf
    ensures r == Answer(list, addr, count)
    ensures r == 0 ==> buf[..] == old(buf[..])
    ensures r != 0 ==> r == count && Filled(list, m, addr, buf[..], old(buf[..]), count)
  {
    var left := count;
    if (addr + count) % ADDRESS_SPACE < count {
      left := ADDRESS_SPACE - addr;
    }
    ghost var was, all := buf[..], left;
    var pos: nat, i: nat := 0, 0;
    while i < |list|
      invariant 0 <= i <= |list| && 0 <= left && pos + left == all
      invariant Filled(list, m, addr, buf[..], was, pos)
      invariant Passed(list, i, addr, pos, left)
    {
      if left == 0 {
        break;
      }
      var e := list[i];
      if e.vm && addr + pos < e.start + e.size {
        pos, left := FillHole(list, m, buf, addr, pos, left, i, was);
        if left > 0 {
          var n := e.start + e.size - (addr + pos);
          if n > left {
            n := left;
          }
          CopyArea(list, m, buf, addr, pos, n, i, was);
          pos, left := pos + n, left - n;
        }
      }
      i := i + 1;
    }
    if pos == 0 {
      return 0;
    }
    NothingAfter(list, m, i, addr, pos, left);
    if pos != count {
      Zero(buf, pos, count - pos);
    }
    return count;
  }

  /** [addr, addr + count) has an address of a live area. */
  ghost predicate Meets(list: seq<Entry>, addr: int, count: int) {
    exists k :: 0 <= k < |list| && AreaMeets(list[k], addr, count)
  }

  predicate AreaMeets(e: Entry, addr: int, count: int) {
    e.vm && addr < e.start + e.size && e.start < addr + count && count > 0 && e.size > 0
  }

  /** The first live area that ends above the start of the range. */
  ghost predicate FirstAbove(list: seq<Entry>, k: nat, addr: int) {
    && k < |list| && AreaAbove(list[k], addr)
    && forall i :: 0 <= i < k ==> !AreaAbove(list[i], addr)
  }

  /** The range stops at or before the first live area ending above its start. */
  ghost predicate BelowFirst(list: seq<Entry>, addr: int, count: int) {
    exists k: nat :: FirstAbove(list, k, addr) && addr + count <= list[k].start
  }

  lemma {:induction false} FirstAboveExists(list: seq<Entry>, addr: int, n: nat) returns (k: nat)
    requires n < |list| && AreaAbove(list[n], addr)
    ensures FirstAbove(list, k, addr)
  {
    if i :| 0 <= i < n && AreaAbove(list[i], addr) {
      k := FirstAboveExists(list, addr, i);
    } else {
      k := n;
    }
  }

  /** A zero answer does mean that the range meets no live area, as documented. */
  lemma ZeroMeansNoArea(list: seq<Entry>, addr: nat, count: nat)
    requires Answer(list, addr, count) == 0
    ensures !Meets(list, addr, count)
  {
    forall k | 0 <= k < |list| ensures !AreaMeets(list[k], addr, count) {
      assert AreaAbove(list[k], addr) ==> EndsAbove(list, addr);
    }
  }

  lemma FirstDecides(list: seq<Entry>, k: nat, addr: nat, count: nat)
    requires Sorted(list) && FirstAbove(list, k, addr) && count > 0 && list[k].size > 0
    ensures !Meets(list, addr, count) <==> addr + count <= list[k].start
  {
    if addr + count > list[k].start {
      assert AreaMeets(list[k], addr, count);
    } else {
      forall i | 0 <= i < |list| ensures !AreaMeets(list[i], addr, count) {
        assert i < k ==> !AreaAbove(list[i], addr);
        assert i > k ==> list[k].end <= list[i].start;
      }
    }
  }

  /** The documented meaning of the answer, 0 exactly for a range that meets no live area, holds for every
      range but a nonempty one below the first live area that ends above its start: such a range meets no
      area, and vread answers its length all the same. */
  lemma LengthWithoutAreaIff(list: seq<Entry>, addr: nat, count: nat)
    requires Sorted(list) && forall i :: 0 <= i < |list| && list[i].vm ==> list[i].size > 0
    ensures (Answer(list, addr, count) == 0 <==> !Meets(list, addr, count)) <==> !(count > 0 && BelowFirst(list, addr, count))
  {
    if count > 0 && EndsAbove(list, addr) {
      var n :| 0 <= n < |list| && AreaAbove(list[n], addr);
      var k := FirstAboveExists(list, addr, n);
      FirstDecides(list, k, addr, count);
    }
    if Answer(list, addr, count) == 0 {
      ZeroMeansNoArea(list, addr, count);
    }
  }

  /** One page asked for at address 0 while the only area lies above: no area is met, the page is reported. */
  lemma HoleIsReported() returns (list: seq<Entry>)
    ensures Sorted(list) && !Meets(list, 0, PAGE_SIZE) && Answer(list, 0, PAGE_SIZE) == PAGE_SIZE
  {
    list := [Entry(2 * PAGE_SIZE, 4 * PAGE_SIZE, true, PAGE_SIZE, false)];
    assert AreaAbove(list[0], 0);
  }
}
