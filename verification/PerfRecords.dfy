/** perf_mmap_read: the ring of perf records is laid out straight and decoded. The partner is the
    layout itself, as perf_event_open(2) gives it in its section "MMAP layout". */
module PerfRecords {
  import opened Common

  // ---------- little-endian words ----------

  function Pow256(n: nat): (r: nat)
    ensures r > 0 && (n == 2 ==> r == 0x1_0000) && (n == 4 ==> r == 0x1_0000_0000) && (n == 8 ==> r == 0x1_0000_0000_0000_0000)
  {
    if n == 0 then 1
    else
      assert n == 4 ==> Pow256(n - 1) == 256 * Pow256(2);
      assert n == 8 ==> Pow256(n - 1) == 256 * Pow256(6) && Pow256(6) == 256 * Pow256(5) && Pow256(5) == 256 * Pow256(4);
      256 * Pow256(n - 1)
  }

  function ToBytes(v: nat, n: nat): (r: seq<Byte>)
    ensures |r| == n
  {
    if n == 0 then [] else [v % 256] + ToBytes(v / 256, n - 1)
  }

  function FromBytes(s: seq<Byte>): nat {
    if s == [] then 0 else s[0] + 256 * FromBytes(s[1..])
  }

  lemma {:induction false} WordRoundTrip(v: nat, n: nat)
    requires v < Pow256(n)
    ensures FromBytes(ToBytes(v, n)) == v
  {
    if n > 0 {
      WordRoundTrip(v / 256, n - 1);
      assert ToBytes(v, n)[1..] == ToBytes(v / 256, n - 1);
    }
  }

  // ---------- fields ----------

  /** A word of some bytes, or a run of bytes. */
  datatype Field = Word(width: nat, value: nat) | Run(bytes: seq<Byte>)

  function FieldBytes(f: Field): seq<Byte> {
    match f
    case Word(width, value) => ToBytes(value, width)
    case Run(bytes) => bytes
  }

  function Flatten(fs: seq<Field>): seq<Byte> {
    if fs == [] then [] else FieldBytes(fs[0]) + Flatten(fs[1..])
  }

  /** From `offset` on the bytes are those of the fields. */
  ghost predicate At(data: seq<Byte>, offset: nat, fs: seq<Field>) {
    offset <= |data| && data[offset..] == Flatten(fs)
  }

  lemma AtHead(data: seq<Byte>, offset: nat, f: Field, rest: seq<Field>)
    requires At(data, offset, [f] + rest)
    ensures var n := |FieldBytes(f)|;
            offset + n <= |data| && data[offset..offset + n] == FieldBytes(f) && At(data, offset + n, rest)
  {
    var fs, n := [f] + rest, |FieldBytes(f)|;
    assert fs[0] == f && fs[1..] == rest;
    assert data[offset..][..n] == data[offset..offset + n] && data[offset..][n..] == data[offset + n..];
  }

  /** memcpy of `width` bytes into a word. */
  function Read(data: seq<Byte>, offset: nat, width: nat): nat
    requires offset + width <= |data|
  {
    FromBytes(data[offset..offset + width])
  }

  /** Reading a word gives the value written, and leaves the reader at the next field. */
  lemma ReadWord(data: seq<Byte>, offset: nat, width: nat, value: nat, rest: seq<Field>)
    requires At(data, offset, [Word(width, value)] + rest)
    ensures offset + width <= |data| && At(data, offset + width, rest)
    ensures value < Pow256(width) ==> Read(data, offset, width) == value
  {
    AtHead(data, offset, Word(width, value), rest);
    if value < Pow256(width) {
      WordRoundTrip(value, width);
    }
  }

  lemma SkipRun(data: seq<Byte>, offset: nat, bytes: seq<Byte>, rest: seq<Field>)
    requires At(data, offset, [Run(bytes)] + rest)
    ensures offset + |bytes| <= |data| && data[offset..offset + |bytes|] == bytes && At(data, offset + |bytes|, rest)
  {
    AtHead(data, offset, Run(bytes), rest);
  }

  // ---------- records ----------

  type U32 = x: int | 0 <= x < 0x1_0000_0000
  type U64 = x: int | 0 <= x < 0x1_0000_0000_0000_0000

  datatype Branch = Branch(from: U64, to: U64, flags: U64)

  /** The parts of a sample that the devices may ask for. */
  datatype SampleType = SampleType(
    ip: bool, tid: bool, time: bool, addr: bool, id: bool, streamId: bool, cpu: bool, period: bool,
    callchain: bool, raw: bool, branchStack: bool)

  datatype Sample = Sample(
    ip: U64, pid: U32, tid: U32, time: U64, addr: U64, id: U64, streamId: U64, cpu: U32, res: U32, period: U64,
    chain: seq<U64>, raw: seq<Byte>, branches: seq<Branch>)

  datatype Record =
    | Mmap(pid: U32, tid: U32, addr: U64, len: U64, pgoff: U64, filename: seq<Byte>)
    | Lost(id: U64, lost: U64)
    | Comm(pid: U32, tid: U32, comm: seq<Byte>)
    | Exit(pid: U32, ppid: U32, tid: U32, ptid: U32, time: U64)
    | Throttle(time: U64, id: U64, streamId: U64)
    | Unthrottle(time: U64, id: U64, streamId: U64)
    | Fork(pid: U32, ppid: U32, tid: U32, ptid: U32, time: U64)
    | SampleRecord(sample: Sample)
    | Mmap2(pid: U32, tid: U32, addr: U64, len: U64, pgoff: U64, maj: U32, min: U32, ino: U64, inoGeneration: U64,
            prot: U32, flags: U32, filename: seq<Byte>)

  function TypeOf(r: Record): nat {
    match r
    case Mmap(_, _, _, _, _, _) => 1
    case Lost(_, _) => 2
    case Comm(_, _, _) => 3
    case Exit(_, _, _, _, _) => 4
    case Throttle(_, _, _) => 5
    case Unthrottle(_, _, _) => 6
    case Fork(_, _, _, _, _) => 7
    case SampleRecord(_) => 9
    case Mmap2(_, _, _, _, _, _, _, _, _, _, _, _) => 10
  }

  function W4(v: U32): Field { Word(4, v) }
  function W8(v: U64): Field { Word(8, v) }

  function If(b: bool, fs: seq<Field>, rest: seq<Field>): seq<Field> {
    if b then fs + rest else rest
  }

  function Chain(ips: seq<U64>, rest: seq<Field>): seq<Field> {
    if ips == [] then rest else [W8(ips[0])] + Chain(ips[1..], rest)
  }

  function Branches(bs: seq<Branch>, rest: seq<Field>): seq<Field> {
    if bs == [] then rest else [W8(bs[0].from)] + ([W8(bs[0].to)] + ([W8(bs[0].flags)] + Branches(bs[1..], rest)))
  }

  function RawFields(raw: seq<Byte>, rest: seq<Field>): seq<Field> {
    [Word(4, |raw|)] + ([Run(raw)] + rest)
  }

  function BranchFields(bs: seq<Branch>, rest: seq<Field>): seq<Field> {
    [Word(8, |bs|)] + Branches(bs, rest)
  }

  /** The variable parts of a sample. */
  function Tail(s: Sample, st: SampleType, rest: seq<Field>): seq<Field> {
    var branches := if st.branchStack then BranchFields(s.branches, rest) else rest;
    var raw := if st.raw then RawFields(s.raw, branches) else branches;
    if st.callchain then [Word(8, |s.chain|)] + Chain(s.chain, raw) else raw
  }

  /** The words of a sample from its stream id on. */
  function Second(s: Sample, st: SampleType, rest: seq<Field>): seq<Field> {
    var period := If(st.period, [W8(s.period)], Tail(s, st, rest));
    var cpu := if st.cpu then [W4(s.cpu)] + ([W4(s.res)] + period) else period;
    If(st.streamId, [W8(s.streamId)], cpu)
  }

  function First(s: Sample, st: SampleType, rest: seq<Field>): seq<Field> {
    var id := If(st.id, [W8(s.id)], Second(s, st, rest));
    var addr := If(st.addr, [W8(s.addr)], id);
    var time := If(st.time, [W8(s.time)], addr);
    var tid := if st.tid then [W4(s.pid)] + ([W4(s.tid)] + time) else time;
    If(st.ip, [W8(s.ip)], tid)
  }

  /** The layout of each record after its header. */
  function Payload(r: Record, st: SampleType, rest: seq<Field>): seq<Field> {
    match r
    case Mmap(pid, tid, addr, len, pgoff, filename) =>
      [W4(pid)] + ([W4(tid)] + ([W8(addr)] + ([W8(len)] + ([W8(pgoff)] + ([Run(filename)] + rest)))))
    case Lost(id, lost) => [W8(id)] + ([W8(lost)] + rest)
    case Comm(pid, tid, comm) => [W4(pid)] + ([W4(tid)] + ([Run(comm)] + rest))
    case Exit(pid, ppid, tid, ptid, time) => [W4(pid)] + ([W4(ppid)] + ([W4(tid)] + ([W4(ptid)] + ([W8(time)] + rest))))
    case Throttle(time, id, streamId) => [W8(time)] + ([W8(id)] + ([W8(streamId)] + rest))
    case Unthrottle(time, id, streamId) => [W8(time)] + ([W8(id)] + ([W8(streamId)] + rest))
    case Fork(pid, ppid, tid, ptid, time) => [W4(pid)] + ([W4(ppid)] + ([W4(tid)] + ([W4(ptid)] + ([W8(time)] + rest))))
    case SampleRecord(s) => First(s, st, rest)
    case Mmap2(pid, tid, addr, len, pgoff, maj, min, ino, gen, prot, flags, filename) =>
      [W4(pid)] + ([W4(tid)] + ([W8(addr)] + ([W8(len)] + ([W8(pgoff)] + Mmap2Tail(maj, min, ino, gen, prot, flags, filename, rest)))))
  }

  function Mmap2Tail(maj: U32, min: U32, ino: U64, gen: U64, prot: U32, flags: U32, filename: seq<Byte>, rest: seq<Field>): seq<Field> {
    [W4(maj)] + ([W4(min)] + ([W8(ino)] + ([W8(gen)] + ([W4(prot)] + ([W4(flags)] + ([Run(filename)] + rest))))))
  }

  datatype Entry = Entry(misc: nat, record: Record)

  function SizeOf(r: Record, st: SampleType): nat {
    8 + |Flatten(Payload(r, st, []))|
  }

  const LONGEST := 0x1_0000

  /** No list is longer than a record can be. */
  predicate Short(s: Sample) {
    |s.chain| < LONGEST && |s.raw| < LONGEST && |s.branches| < LONGEST
  }

  /** What the kernel writes: the size of a record fits its 16-bit header field. */
  predicate Writable(e: Entry, st: SampleType) {
    e.misc < 0x1_0000 && SizeOf(e.record, st) < 0x1_0000 && (e.record.SampleRecord? ==> Short(e.record.sample))
  }

  /** The records one after another, each behind its header. */
  function AllFields(es: seq<Entry>, st: SampleType): seq<Field> {
    if es == [] then []
    else
      [Word(4, TypeOf(es[0].record))] + ([Word(2, es[0].misc)] + ([Word(2, SizeOf(es[0].record, st))]
      + Payload(es[0].record, st, AllFields(es[1..], st))))
  }

  function Encode(es: seq<Entry>, st: SampleType): seq<Byte> {
    Flatten(AllFields(es, st))
  }

  // ---------- what is decoded ----------

  /** A sample as printed: the parts not asked for are absent. */
  function Masked(s: Sample, st: SampleType): Sample {
    Sample(
      if st.ip then s.ip else 0, if st.tid then s.pid else 0, if st.tid then s.tid else 0, if st.time then s.time else 0,
      if st.addr then s.addr else 0, if st.id then s.id else 0, if st.streamId then s.streamId else 0,
      if st.cpu then s.cpu else 0, if st.cpu then s.res else 0, if st.period then s.period else 0,
      if st.callchain then s.chain else [], if st.raw then s.raw else [], if st.branchStack then s.branches else [])
  }

  function MaskedRecord(r: Record, st: SampleType): Record {
    if r.SampleRecord? then SampleRecord(Masked(r.sample, st)) else r
  }

  /** The event's fields that a sample overwrites. */
  datatype Fields = Fields(ip: U64, pid: U32, tid: U32, time: U64, addr: U64, cpu: U32)

  function Overwrite(f: Fields, s: Sample, st: SampleType): Fields {
    Fields(if st.ip then s.ip else f.ip, if st.tid then s.pid else f.pid, if st.tid then s.tid else f.tid,
           if st.time then s.time else f.time, if st.addr then s.addr else f.addr, if st.cpu then s.cpu else f.cpu)
  }

  /** The event after a run of records. */
  function After(f: Fields, es: seq<Entry>, st: SampleType): Fields
    decreases |es|
  {
    if es == [] then f
    else After(if es[0].record.SampleRecord? then Overwrite(f, es[0].record.sample, st) else f, es[1..], st)
  }

  // ---------- the decoder ----------

  class Event {
    var hIpAddr: U64
    var hPId: U32
    var hTId: U32
    var eventTime: U64
    var hDataAddr: U64
    var hCpu: U32

    function View(): Fields
      reads this
    {
      Fields(hIpAddr, hPId, hTId, eventTime, hDataAddr, hCpu)
    }
  }

  method Take(data: seq<Byte>, offset: nat, width: nat, ghost value: nat, ghost rest: seq<Field>) returns (v: nat, next: nat)
    requires At(data, offset, [Word(width, value)] + rest) && value < Pow256(width)
    ensures v == value && next == offset + width && At(data, next, rest)
  {
    ReadWord(data, offset, width, value, rest);
    v, next := Read(data, offset, width), offset + width;
  }

  method TakeRun(data: seq<Byte>, offset: nat, size: int, ghost bytes: seq<Byte>, ghost rest: seq<Field>) returns (s: seq<Byte>, next: nat)
    requires At(data, offset, [Run(bytes)] + rest) && size == |bytes|
    ensures s == bytes && next == offset + size && At(data, next, rest)
  {
    SkipRun(data, offset, bytes, rest);
    s, next := data[offset..offset + size], offset + size;
  }

  method DecodeChain(data: seq<Byte>, offset0: nat, ghost chain: seq<U64>, ghost rest: seq<Field>) returns (ips: seq<U64>, offset: nat)
    requires At(data, offset0, [Word(8, |chain|)] + Chain(chain, rest)) && |chain| < LONGEST
    ensures ips == chain && At(data, offset, rest)
  {
    hide At;
    offset := offset0;
    var nr, ip: nat;
    nr, offset := Take(data, offset, 8, |chain|, Chain(chain, rest));
    ips := [];
    var i := 0;
    while i < nr
      invariant 0 <= i <= nr && ips == chain[..i]
      invariant At(data, offset, Chain(chain[i..], rest))
    {
      assert chain[i..][0] == chain[i] && chain[i..][1..] == chain[i + 1..];
      ip, offset := Take(data, offset, 8, chain[i], Chain(chain[i + 1..], rest));
      ips := ips + [ip];
      i := i + 1;
    }
  }

  method DecodeBranches(data: seq<Byte>, offset0: nat, ghost bs: seq<Branch>, ghost rest: seq<Field>)
    returns (stack: seq<Branch>, offset: nat)
    requires At(data, offset0, BranchFields(bs, rest)) && |bs| < LONGEST
    ensures stack == bs && At(data, offset, rest)
  {
    hide At;
    offset := offset0;
    var bnr, from, to, flags: nat;
    bnr, offset := Take(data, offset, 8, |bs|, Branches(bs, rest));
    stack := [];
    var i := 0;
    while i < bnr
      invariant 0 <= i <= bnr && stack == bs[..i]
      invariant At(data, offset, Branches(bs[i..], rest))
    {
      ghost var b, tail := bs[i], Branches(bs[i + 1..], rest);
      assert bs[i..][0] == b && bs[i..][1..] == bs[i + 1..];
      from, offset := Take(data, offset, 8, b.from, [W8(b.to)] + ([W8(b.flags)] + tail));
      to, offset := Take(data, offset, 8, b.to, [W8(b.flags)] + tail);
      flags, offset := Take(data, offset, 8, b.flags, tail);
      stack := stack + [Branch(from, to, flags)];
      i := i + 1;
    }
  }

  method DecodeTail(data: seq<Byte>, offset0: nat, st: SampleType, ghost s: Sample, ghost rest: seq<Field>)
    returns (chain: seq<U64>, raw: seq<Byte>, stack: seq<Branch>, offset: nat)
    requires At(data, offset0, Tail(s, st, rest)) && Short(s)
    ensures chain == (if st.callchain then s.chain else []) && raw == (if st.raw then s.raw else [])
    ensures stack == if st.branchStack then s.branches else []
    ensures At(data, offset, rest)
  {
    hide At, BranchFields;
    offset, chain, raw, stack := offset0, [], [], [];
    ghost var branches := if st.branchStack then BranchFields(s.branches, rest) else rest;
    ghost var raws := if st.raw then RawFields(s.raw, branches) else branches;
    if st.callchain {
      chain, offset := DecodeChain(data, offset, s.chain, raws);
    }
    if st.raw {
      var size: nat;
      size, offset := Take(data, offset, 4, |s.raw|, [Run(s.raw)] + branches);
      raw, offset := TakeRun(data, offset, size, s.raw, branches);
    }
    if st.branchStack {
      stack, offset := DecodeBranches(data, offset, s.branches, rest);
    }
  }

  /** A word that is there only when its bit is set. */
  method TakeIf(b: bool, data: seq<Byte>, offset: nat, ghost value: U64, ghost rest: seq<Field>) returns (v: U64, next: nat)
    requires At(data, offset, If(b, [W8(value)], rest))
    ensures v == (if b then value else 0) && At(data, next, rest)
  {
    hide At;
    v, next := 0, offset;
    if b {
      v, next := Take(data, offset, 8, value, rest);
    }
  }

  /** Two ints that share a bit. */
  method TakePairIf(b: bool, data: seq<Byte>, offset: nat, ghost v: U32, ghost w: U32, ghost rest: seq<Field>)
    returns (x: U32, y: U32, next: nat)
    requires At(data, offset, if b then [W4(v)] + ([W4(w)] + rest) else rest)
    ensures x == (if b then v else 0) && y == (if b then w else 0) && At(data, next, rest)
  {
    hide At;
    x, y, next := 0, 0, offset;
    if b {
      x, next := Take(data, next, 4, v, [W4(w)] + rest);
      y, next := Take(data, next, 4, w, rest);
    }
  }

  method DecodeFirst(data: seq<Byte>, offset0: nat, st: SampleType, ev: Event, ghost s: Sample, ghost rest: seq<Field>)
    returns (ip: U64, pid: U32, tid: U32, time: U64, addr: U64, id: U64, offset: nat)
    requires At(data, offset0, First(s, st, rest))
    modifies ev
    ensures ip == (if st.ip then s.ip else 0) && pid == (if st.tid then s.pid else 0) && tid == (if st.tid then s.tid else 0)
    ensures time == (if st.time then s.time else 0) && addr == (if st.addr then s.addr else 0) && id == if st.id then s.id else 0
    ensures ev.View() == Overwrite(old(ev.View()), s, st).(cpu := old(ev.hCpu)) && At(data, offset, Second(s, st, rest))
  {
    hide At, Second, If;
    ghost var second := Second(s, st, rest);
    ghost var ids := If(st.id, [W8(s.id)], second);
    ghost var addrs := If(st.addr, [W8(s.addr)], ids);
    ghost var times := If(st.time, [W8(s.time)], addrs);
    ghost var tids := if st.tid then [W4(s.pid)] + ([W4(s.tid)] + times) else times;
    ip, offset := TakeIf(st.ip, data, offset0, s.ip, tids);
    if st.ip { ev.hIpAddr := ip; }
    pid, tid, offset := TakePairIf(st.tid, data, offset, s.pid, s.tid, times);
    if st.tid { ev.hPId, ev.hTId := pid, tid; }
    time, offset := TakeIf(st.time, data, offset, s.time, addrs);
    if st.time { ev.eventTime := time; }
    addr, offset := TakeIf(st.addr, data, offset, s.addr, ids);
    if st.addr { ev.hDataAddr := addr; }
    id, offset := TakeIf(st.id, data, offset, s.id, second);
  }

  method DecodeSecond(data: seq<Byte>, offset0: nat, st: SampleType, ev: Event, ghost s: Sample, ghost rest: seq<Field>)
    returns (streamId: U64, cpu: U32, res: U32, period: U64, offset: nat)
    requires At(data, offset0, Second(s, st, rest))
    modifies ev`hCpu
    ensures streamId == (if st.streamId then s.streamId else 0) && period == (if st.period then s.period else 0)
    ensures cpu == (if st.cpu then s.cpu else 0) && res == if st.cpu then s.res else 0
    ensures ev.hCpu == (if st.cpu then s.cpu else old(ev.hCpu)) && At(data, offset, Tail(s, st, rest))
  {
    hide At, Tail, If;
    ghost var tail := Tail(s, st, rest);
    ghost var periods := If(st.period, [W8(s.period)], tail);
    ghost var cpus := if st.cpu then [W4(s.cpu)] + ([W4(s.res)] + periods) else periods;
    streamId, offset := TakeIf(st.streamId, data, offset0, s.streamId, cpus);
    cpu, res, offset := TakePairIf(st.cpu, data, offset, s.cpu, s.res, periods);
    if st.cpu { ev.hCpu := cpu; }
    period, offset := TakeIf(st.period, data, offset, s.period, tail);
  }

  method DecodeSample(data: seq<Byte>, offset0: nat, st: SampleType, ev: Event, ghost s: Sample, ghost rest: seq<Field>)
    returns (out: Sample, offset: nat)
    requires At(data, offset0, First(s, st, rest)) && Short(s)
    modifies ev
    ensures out == Masked(s, st) && ev.View() == Overwrite(old(ev.View()), s, st)
    ensures At(data, offset, rest)
  {
    hide At, First, Second, Tail;
    var ip, pid, tid, time, addr, id, streamId, cpu, res, period, chain, raw, stack;
    ip, pid, tid, time, addr, id, offset := DecodeFirst(data, offset0, st, ev, s, rest);
    streamId, cpu, res, period, offset := DecodeSecond(data, offset, st, ev, s, rest);
    chain, raw, stack, offset := DecodeTail(data, offset, st, s, rest);
    out := Sample(ip, pid, tid, time, addr, id, streamId, cpu, res, period, chain, raw, stack);
  }

  /** The records of fixed layout, and those that end in a string whose length is left over from `size`. */
  method DecodePlain(data: seq<Byte>, offset0: nat, kind: nat, size: nat, st: SampleType, ghost r: Record, ghost rest: seq<Field>)
    returns (out: Record, offset: nat)
    requires !r.SampleRecord? && !r.Mmap? && !r.Mmap2?
    requires kind == TypeOf(r) && size == SizeOf(r, st) && At(data, offset0, Payload(r, st, rest))
    ensures out == r && At(data, offset, rest)
  {
    hide At, SizeOf;
    offset := offset0;
    var a, b, c, d, e: nat;
    if kind == 2 {
      a, offset := Take(data, offset, 8, r.id, [W8(r.lost)] + rest);
      b, offset := Take(data, offset, 8, r.lost, rest);
      out := Lost(a, b);
    } else if kind == 3 {
      SizeOfStrings(r, st);
      a, offset := Take(data, offset, 4, r.pid, [W4(r.tid)] + ([Run(r.comm)] + rest));
      b, offset := Take(data, offset, 4, r.tid, [Run(r.comm)] + rest);
      var comm;
      comm, offset := TakeRun(data, offset, size - 16, r.comm, rest);
      out := Comm(a, b, comm);
    } else if kind == 4 || kind == 7 {
      a, offset := Take(data, offset, 4, r.pid, [W4(r.ppid)] + ([W4(r.tid)] + ([W4(r.ptid)] + ([W8(r.time)] + rest))));
      b, offset := Take(data, offset, 4, r.ppid, [W4(r.tid)] + ([W4(r.ptid)] + ([W8(r.time)] + rest)));
      c, offset := Take(data, offset, 4, r.tid, [W4(r.ptid)] + ([W8(r.time)] + rest));
      d, offset := Take(data, offset, 4, r.ptid, [W8(r.time)] + rest);
      e, offset := Take(data, offset, 8, r.time, rest);
      out := if kind == 4 then Exit(a, b, c, d, e) else Fork(a, b, c, d, e);
    } else {
      a, offset := Take(data, offset, 8, r.time, [W8(r.id)] + ([W8(r.streamId)] + rest));
      b, offset := Take(data, offset, 8, r.id, [W8(r.streamId)] + rest);
      c, offset := Take(data, offset, 8, r.streamId, rest);
      out := if kind == 5 then Throttle(a, b, c) else Unthrottle(a, b, c);
    }
  }

  method DecodeMmap(data: seq<Byte>, offset0: nat, kind: nat, size: nat, st: SampleType, ghost r: Record, ghost rest: seq<Field>)
    returns (out: Record, offset: nat)
    requires (r.Mmap? || r.Mmap2?) && kind == TypeOf(r) && size == SizeOf(r, st) && At(data, offset0, Payload(r, st, rest))
    ensures out == r && At(data, offset, rest)
  {
    hide At, SizeOf;
    SizeOfStrings(r, st);
    offset := offset0;
    var pid, tid, addr, len, pgoff: nat;
    ghost var tail := if r.Mmap? then [Run(r.filename)] + rest
                      else Mmap2Tail(r.maj, r.min, r.ino, r.inoGeneration, r.prot, r.flags, r.filename, rest);
    pid, offset := Take(data, offset, 4, r.pid, [W4(r.tid)] + ([W8(r.addr)] + ([W8(r.len)] + ([W8(r.pgoff)] + tail))));
    tid, offset := Take(data, offset, 4, r.tid, [W8(r.addr)] + ([W8(r.len)] + ([W8(r.pgoff)] + tail)));
    addr, offset := Take(data, offset, 8, r.addr, [W8(r.len)] + ([W8(r.pgoff)] + tail));
    len, offset := Take(data, offset, 8, r.len, [W8(r.pgoff)] + tail);
    pgoff, offset := Take(data, offset, 8, r.pgoff, tail);
    var filename;
    if kind == 1 {
      filename, offset := TakeRun(data, offset, size - 40, r.filename, rest);
      out := Mmap(pid, tid, addr, len, pgoff, filename);
    } else {
      var maj, min, ino, gen, prot, flags: nat;
      ghost var t6 := [Run(r.filename)] + rest;
      ghost var t5 := [W4(r.flags)] + t6;
      ghost var t4 := [W4(r.prot)] + t5;
      ghost var t3 := [W8(r.inoGeneration)] + t4;
      ghost var t2 := [W8(r.ino)] + t3;
      maj, offset := Take(data, offset, 4, r.maj, [W4(r.min)] + t2);
      min, offset := Take(data, offset, 4, r.min, t2);
      ino, offset := Take(data, offset, 8, r.ino, t3);
      gen, offset := Take(data, offset, 8, r.inoGeneration, t4);
      prot, offset := Take(data, offset, 4, r.prot, t5);
      flags, offset := Take(data, offset, 4, r.flags, t6);
      filename, offset := TakeRun(data, offset, size - 72, r.filename, rest);
      out := Mmap2(pid, tid, addr, len, pgoff, maj, min, ino, gen, prot, flags, filename);
    }
  }

  lemma FlattenLength(f: Field, rest: seq<Field>)
    ensures |Flatten([f] + rest)| == (match f case Word(w, _) => w case Run(b) => |b|) + |Flatten(rest)|
  {
    assert ([f] + rest)[1..] == rest;
  }

  /** The bytes a string record has beside its string. */
  lemma SizeOfStrings(r: Record, st: SampleType)
    ensures r.Comm? ==> SizeOf(r, st) == 16 + |r.comm|
    ensures r.Mmap? ==> SizeOf(r, st) == 40 + |r.filename|
    ensures r.Mmap2? ==> SizeOf(r, st) == 72 + |r.filename|
  {
    hide Flatten;
    if r.Comm? {
      StringLength(r.comm);
      FlattenLength(W4(r.tid), [Run(r.comm)] + []);
      FlattenLength(W4(r.pid), [W4(r.tid)] + ([Run(r.comm)] + []));
    } else if r.Mmap? {
      StringLength(r.filename);
      PlaceLength(r, [Run(r.filename)] + []);
    } else if r.Mmap2? {
      var t6 := [Run(r.filename)] + [];
      var t5 := [W4(r.flags)] + t6;
      var t4 := [W4(r.prot)] + t5;
      var t3 := [W8(r.inoGeneration)] + t4;
      var t2 := [W8(r.ino)] + t3;
      StringLength(r.filename);
      FlattenLength(W4(r.flags), t6);
      FlattenLength(W4(r.prot), t5);
      FlattenLength(W8(r.inoGeneration), t4);
      FlattenLength(W8(r.ino), t3);
      FlattenLength(W4(r.min), t2);
      FlattenLength(W4(r.maj), [W4(r.min)] + t2);
      PlaceLength(r, [W4(r.maj)] + ([W4(r.min)] + t2));
    }
  }

  lemma StringLength(s: seq<Byte>)
    ensures |Flatten([Run(s)] + [])| == |s|
  {
    FlattenLength(Run(s), []);
  }

  lemma PlaceLength(r: Record, tail: seq<Field>)
    requires r.Mmap? || r.Mmap2?
    ensures |Flatten([W4(r.pid)] + ([W4(r.tid)] + ([W8(r.addr)] + ([W8(r.len)] + ([W8(r.pgoff)] + tail)))))| == 32 + |Flatten(tail)|
  {
    hide Flatten;
    FlattenLength(W8(r.pgoff), tail);
    FlattenLength(W8(r.len), [W8(r.pgoff)] + tail);
    FlattenLength(W8(r.addr), [W8(r.len)] + ([W8(r.pgoff)] + tail));
    FlattenLength(W4(r.tid), [W8(r.addr)] + ([W8(r.len)] + ([W8(r.pgoff)] + tail)));
    FlattenLength(W4(r.pid), [W4(r.tid)] + ([W8(r.addr)] + ([W8(r.len)] + ([W8(r.pgoff)] + tail))));
  }

  method DecodeBody(data: seq<Byte>, offset0: nat, kind: nat, size: nat, st: SampleType, ev: Event, ghost e: Entry, ghost rest: seq<Field>)
    returns (out: Record, offset: nat)
    requires Writable(e, st) && kind == TypeOf(e.record) && size == SizeOf(e.record, st) && At(data, offset0, Payload(e.record, st, rest))
    modifies ev
    ensures out == MaskedRecord(e.record, st) && At(data, offset, rest)
    ensures ev.View() == if e.record.SampleRecord? then Overwrite(old(ev.View()), e.record.sample, st) else old(ev.View())
  {
    hide At, Masked, SizeOf, First, Mmap2Tail;
    if kind == 9 {
      var s;
      s, offset := DecodeSample(data, offset0, st, ev, e.record.sample, rest);
      out := SampleRecord(s);
    } else if kind == 1 || kind == 10 {
      out, offset := DecodeMmap(data, offset0, kind, size, st, e.record, rest);
    } else {
      out, offset := DecodePlain(data, offset0, kind, size, st, e.record, rest);
    }
  }

  ghost function Printed(es: seq<Entry>, st: SampleType): seq<Record> {
    if es == [] then [] else Printed(es[..|es| - 1], st) + [MaskedRecord(es[|es| - 1].record, st)]
  }

  ghost predicate AllWritable(es: seq<Entry>, st: SampleType) {
    forall i :: 0 <= i < |es| ==> Writable(es[i], st)
  }

  /** The fields of the records from number `k` on. */
  function From(es: seq<Entry>, st: SampleType, k: nat): seq<Field>
    requires k <= |es|
  {
    AllFields(es[k..], st)
  }

  lemma NextRecord(data: seq<Byte>, offset: nat, es: seq<Entry>, st: SampleType, k: nat)
    requires k <= |es| && At(data, offset, From(es, st, k))
    ensures offset <= |data| && (offset < |data| <==> k < |es|)
    ensures k < |es| ==> From(es, st, k) == [Word(4, TypeOf(es[k].record))] + ([Word(2, es[k].misc)]
                           + ([Word(2, SizeOf(es[k].record, st))] + Payload(es[k].record, st, From(es, st, k + 1))))
  {
    if k < |es| {
      assert es[k..][0] == es[k] && es[k..][1..] == es[k + 1..];
      FlattenLength(Word(4, TypeOf(es[k].record)), From(es, st, k)[1..]);
      assert From(es, st, k) == [Word(4, TypeOf(es[k].record))] + From(es, st, k)[1..];
    } else {
      assert es[k..] == [];
    }
  }

  /** The decoding loop: exactly `size` bytes consumed, every record decoded to what was encoded, and the
      event left with the fields of the samples, the last one's on top. */
  method DecodeAll(buffer: seq<Byte>, size: nat, st: SampleType, ev: Event, ghost es: seq<Entry>)
    returns (printed: seq<Record>, eventsRead: nat, offset: nat)
    requires AllWritable(es, st) && size <= |buffer| && buffer[..size] == Encode(es, st)
    modifies ev
    ensures offset == size && eventsRead == |es| && printed == Printed(es, st)
    ensures ev.View() == After(old(ev.View()), es, st)
  {
    hide At, Flatten, AllFields, MaskedRecord, SizeOf, Writable, Payload, Overwrite;
    offset, eventsRead, printed := 0, 0, [];
    var data := buffer[..size];
    ghost var f0 := ev.View();
    Start(data, es, st);
    NextRecord(data, 0, es, st, 0);
    assert es[..0] == [];
    while offset < size
      invariant eventsRead <= |es| && printed == Printed(es[..eventsRead], st)
      invariant At(data, offset, From(es, st, eventsRead)) && (offset < size <==> eventsRead < |es|) && offset <= size
      invariant After(f0, es, st) == After(ev.View(), es[eventsRead..], st)
      decreases |es| - eventsRead
    {
      NextRecord(data, offset, es, st, eventsRead);
      ghost var e, rest := es[eventsRead], From(es, st, eventsRead + 1);
      ghost var payload := Payload(e.record, st, rest);
      var kind, misc, recordSize: nat, out;
      assert Writable(e, st);
      HeaderFits(e, st);
      kind, offset := Take(data, offset, 4, TypeOf(e.record), [Word(2, e.misc)] + ([Word(2, SizeOf(e.record, st))] + payload));
      misc, offset := Take(data, offset, 2, e.misc, [Word(2, SizeOf(e.record, st))] + payload);
      recordSize, offset := Take(data, offset, 2, SizeOf(e.record, st), payload);
      ghost var f1 := ev.View();
      out, offset := DecodeBody(data, offset, kind, recordSize, st, ev, e, rest);
      assert es[eventsRead..][0] == e && es[eventsRead..][1..] == es[eventsRead + 1..];
      assert es[..eventsRead + 1][..eventsRead] == es[..eventsRead];
      printed := printed + [out];
      eventsRead := eventsRead + 1;
      NextRecord(data, offset, es, st, eventsRead);
    }
    assert es[..|es|] == es;
  }

  lemma HeaderFits(e: Entry, st: SampleType)
    requires Writable(e, st)
    ensures TypeOf(e.record) < 0x1_0000_0000 && e.misc < 0x1_0000 && SizeOf(e.record, st) < 0x1_0000
  {
  }

  lemma Start(data: seq<Byte>, es: seq<Entry>, st: SampleType)
    requires data == Encode(es, st)
    ensures At(data, 0, From(es, st, 0))
  {
    assert es[0..] == es;
    assert data[0..] == data;
  }

  // ---------- the event ----------

  ghost predicate NoSamples(es: seq<Entry>) {
    forall i :: 0 <= i < |es| ==> !es[i].record.SampleRecord?
  }

  lemma {:induction false} OnlySamplesCount(f: Fields, es: seq<Entry>, st: SampleType)
    requires NoSamples(es)
    ensures After(f, es, st) == f
    decreases |es|
  {
    if es != [] {
      OnlySamplesCount(f, es[1..], st);
    }
  }

  /** Every field a sample can set is the last sample's. */
  lemma {:induction false} LastSampleWins(f: Fields, es: seq<Entry>, st: SampleType, k: nat)
    requires k < |es| && es[k].record.SampleRecord? && NoSamples(es[k + 1..])
    ensures var (r, s) := (After(f, es, st), es[k].record.sample);
            && (st.ip ==> r.ip == s.ip) && (st.tid ==> r.pid == s.pid && r.tid == s.tid) && (st.time ==> r.time == s.time)
            && (st.addr ==> r.addr == s.addr) && (st.cpu ==> r.cpu == s.cpu)
    ensures var r := After(f, es, st);
            && (!st.ip ==> r.ip == f.ip) && (!st.tid ==> r.pid == f.pid && r.tid == f.tid) && (!st.time ==> r.time == f.time)
            && (!st.addr ==> r.addr == f.addr) && (!st.cpu ==> r.cpu == f.cpu)
    decreases k
  {
    var f1 := if es[0].record.SampleRecord? then Overwrite(f, es[0].record.sample, st) else f;
    if k == 0 {
      OnlySamplesCount(f1, es[1..], st);
    } else {
      assert es[1..][k - 1] == es[k] && es[1..][k..] == es[k + 1..];
      LastSampleWins(f1, es[1..], st, k - 1);
    }
  }

  // ---------- the ring ----------

  class ControlPage {
    var dataHead: nat
    var dataTail: nat
  }

  /** The bytes lie in the ring from position `pos`, across its end if need be. */
  ghost predicate Placed(ring: seq<Byte>, pos: nat, bytes: seq<Byte>) {
    |bytes| <= |ring| && forall i :: 0 <= i < |bytes| ==> ring[Wrap(pos + i, |ring|)] == bytes[i]
  }

  function Wrap(pos: nat, n: nat): (r: nat)
    requires n > 0
    ensures r < n
  {
    pos % n
  }

  lemma WrapSum(pos: nat, i: nat, n: nat)
    requires i < n
    ensures Wrap(pos + i, n) == if Wrap(pos, n) + i < n then Wrap(pos, n) + i else Wrap(pos, n) + i - n
  {
    RemainderNext(pos, i, n);
  }

  /** The two copies put the ring's bytes in reading order. */
  lemma Straightened(ring: seq<Byte>, pos: nat, bytes: seq<Byte>)
    requires ring != [] && Placed(ring, pos, bytes)
    ensures var w := Wrap(pos, |ring|);
            |ring[w..] + ring[..w]| == |ring| && (ring[w..] + ring[..w])[..|bytes|] == bytes
  {
    var w := Wrap(pos, |ring|);
    var data := ring[w..] + ring[..w];
    forall i | 0 <= i < |bytes| ensures data[i] == bytes[i] {
      WrapSum(pos, i, |ring|);
      assert ring[Wrap(pos + i, |ring|)] == bytes[i];
    }
  }

  /** perf_mmap_read: whatever records the kernel wrote since `prevHead`, wherever they lie in the ring,
      are decoded, the tail moves to the head, and the event holds the last sample. */
  method PerfMmapRead(page: ControlPage, ring: seq<Byte>, prevHead: nat, st: SampleType, ev: Event, ghost es: seq<Entry>)
    returns (head: nat, printed: seq<Record>, eventsRead: nat)
    requires |ring| < 0x8000_0000 && prevHead <= page.dataHead
    requires |ring| > 0 ==> page.dataHead - prevHead == |Encode(es, st)| && Placed(ring, prevHead, Encode(es, st)) && AllWritable(es, st)
    modifies page`dataTail, ev
    ensures ring == [] ==> head == 0 && page.dataTail == old(page.dataTail) && ev.View() == old(ev.View())
    ensures ring != [] ==> head == page.dataTail == page.dataHead
    ensures ring != [] ==> printed == Printed(es, st) && eventsRead == |es| && ev.View() == After(old(ev.View()), es, st)
  {
    hide Encode, AllWritable, After;
    if |ring| == 0 {
      return 0, [], 0;
    }
    head := page.dataHead;
    var size := ToInt(head - prevHead);
    var prevHeadWrap := Wrap(prevHead, |ring|);
    Straightened(ring, prevHead, Encode(es, st));
    var data := ring[prevHeadWrap..] + ring[..prevHeadWrap];
    var offset;
    printed, eventsRead, offset := DecodeAll(data, size, st, ev, es);
    page.dataTail := head;
  }
}
