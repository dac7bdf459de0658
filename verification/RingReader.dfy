/** The watchpoint library's reader of a perf mmap ring: a FIFO over the bytes the kernel has written.
    Neither position wraps; both are taken modulo the payload's size, a power of two. */
module RingReader {
  import opened Common

  /** Bitwise and, on natural numbers. */
  function And(x: nat, y: nat): nat
    decreases x
  {
    if x == 0 then 0 else 2 * And(x / 2, y / 2) + (if x % 2 == 1 && y % 2 == 1 then 1 else 0)
  }

  /** Masking with a power of two less one is the remainder. */
  lemma {:induction false} MaskIsRemainder(x: nat, n: nat)
    requires IsPowerOf2(n)
    ensures And(x, n - 1) == x % n
    decreases n
  {
    hide And;
    if n == 1 {
      AndZero(x);
    } else {
      MaskIsRemainder(x / 2, n / 2);
      MaskHalves(x, n);
    }
  }

  lemma MaskHalves(x: nat, n: nat)
    requires n > 1 && n % 2 == 0 && And(x / 2, n / 2 - 1) == x / 2 % (n / 2)
    ensures And(x, n - 1) == x % n
  {
    hide And;
    AndHalves(x, n);
    HalfRemainder(x, n);
  }

  lemma AndHalves(x: nat, n: nat)
    requires n > 1 && n % 2 == 0
    ensures And(x, n - 1) == 2 * And(x / 2, n / 2 - 1) + x % 2
  {
    assert (n - 1) / 2 == n / 2 - 1 && (n - 1) % 2 == 1;
  }

  lemma {:induction false} AndZero(x: nat)
    ensures And(x, 0) == 0
    decreases x
  {
    if x > 0 {
      AndZero(x / 2);
    }
  }

  lemma HalfRemainder(x: nat, n: int)
    requires n > 1 && n % 2 == 0
    ensures x % n == 2 * (x / 2 % (n / 2)) + x % 2
  {
    var h, y := n / 2, x / 2;
    assert y == y / h * h + y % h;
    var q, r := y / h, 2 * (y % h) + x % 2;
    assert x == q * n + r by {
      assert q * n == 2 * (q * h);
    }
    Remainder(x, q, r, n);
  }

  /** The kernel's side: `written` is every byte ever put in the ring, in order; those from `tail` on are
      still there, each at its position modulo the size. */
  ghost predicate Holds(payload: seq<Byte>, written: seq<Byte>, tail: nat) {
    && payload != [] && tail <= |written| <= tail + |payload|
    && (forall p :: tail <= p < |written| ==> payload[p % |payload|] == written[p])
  }

  /** The two pieces a read copies are the next bytes written. */
  lemma PiecesAreNext(payload: seq<Byte>, written: seq<Byte>, tail: nat, sz: nat)
    requires Holds(payload, written, tail) && sz <= |written| - tail
    ensures var (n, t) := (|payload|, tail % |payload|);
            var m := if n - t < sz then n - t else sz;
            t + m <= n && sz - m <= n && payload[t..t + m] + payload[..sz - m] == written[tail..tail + sz]
  {
    var n, t := |payload|, tail % |payload|;
    var m := if n - t < sz then n - t else sz;
    var got := payload[t..t + m] + payload[..sz - m];
    forall i | 0 <= i < sz ensures got[i] == written[tail + i] {
      if i < n {
        RemainderNext(tail, i, n);
        assert payload[(tail + i) % n] == written[tail + i];
      }
    }
  }

  /** A byte stored at the head overwrites no byte that is still to be read. */
  lemma AppendKeepsOthers(payload: seq<Byte>, written: seq<Byte>, tail: nat, b: Byte)
    requires Holds(payload, written, tail) && |written| < tail + |payload|
    ensures Holds(payload[|written| % |payload| := b], written + [b], tail)
  {
    var n := |payload|;
    forall p | tail <= p < |written| ensures p % n != |written| % n {
      RemainderNext(p, |written| - p, n);
    }
  }

  // ---------- the ring as a state machine ----------

  /** What the reader got: bytes, or a stretch of positions that ConsumeAllRingBufferData passed over. */
  datatype Delivery = Delivered(bytes: seq<Byte>) | Skipped(from: nat, to: nat)

  /** The payload and the two positions; `written` is all the kernel ever wrote, `log` all the reader got. */
  datatype State = State(payload: seq<Byte>, head: nat, tail: nat, written: seq<Byte>, log: seq<Delivery>)

  datatype Step = Read(sz: nat) | Append(bytes: seq<Byte>) | ConsumeAll

  ghost predicate ValidState(s: State) {
    IsPowerOf2(|s.payload|) && s.head == |s.written| && Holds(s.payload, s.written, s.tail)
  }

  /** The kernel appends only where there is room. */
  predicate Enabled(s: State, st: Step) {
    st.Append? ==> s.head + |st.bytes| <= s.tail + |s.payload|
  }

  /** The bytes of one read: up to the end of the payload, and the leftover from its beginning. */
  function Pieces(payload: seq<Byte>, tail: nat, sz: nat): seq<Byte>
    requires payload != [] && sz <= |payload|
  {
    var n, t := |payload|, tail % |payload|;
    var m := if n - t < sz then n - t else sz;
    payload[t..t + m] + payload[..sz - m]
  }

  lemma PiecesAreWritten(payload: seq<Byte>, written: seq<Byte>, tail: nat, sz: nat)
    requires Holds(payload, written, tail) && sz <= |written| - tail
    ensures payload != [] && sz <= |payload| && Pieces(payload, tail, sz) == written[tail..tail + sz]
  {
    PiecesAreNext(payload, written, tail, sz);
  }

  function PutAll(payload: seq<Byte>, head: nat, bytes: seq<Byte>): (r: seq<Byte>)
    requires payload != []
    ensures |r| == |payload|
    decreases |bytes|
  {
    if bytes == [] then payload else PutAll(payload[head % |payload| := bytes[0]], head + 1, bytes[1..])
  }

  /** A read of more than is there changes nothing. */
  ghost function Apply(s: State, st: Step): State
    requires ValidState(s) && Enabled(s, st)
  {
    match st
    case Read(sz) =>
      if sz > s.head - s.tail then s
      else s.(tail := s.tail + sz, log := s.log + [Delivered(Pieces(s.payload, s.tail, sz))])
    case Append(bytes) =>
      s.(payload := PutAll(s.payload, s.head, bytes), head := s.head + |bytes|, written := s.written + bytes)
    case ConsumeAll => s.(tail := s.head, log := s.log + [Skipped(s.tail, s.head)])
  }

  lemma {:induction false} PutAllKeepsOthers(payload: seq<Byte>, written: seq<Byte>, tail: nat, bytes: seq<Byte>)
    requires Holds(payload, written, tail) && |written| + |bytes| <= tail + |payload|
    ensures Holds(PutAll(payload, |written|, bytes), written + bytes, tail)
    decreases |bytes|
  {
    if bytes != [] {
      AppendKeepsOthers(payload, written, tail, bytes[0]);
      PutAllKeepsOthers(payload[|written| % |payload| := bytes[0]], written + [bytes[0]], tail, bytes[1..]);
      assert written + [bytes[0]] + bytes[1..] == written + bytes;
    } else {
      assert written + bytes == written;
    }
  }

  lemma ApplyKeepsValid(s: State, st: Step)
    requires ValidState(s) && Enabled(s, st)
    ensures ValidState(Apply(s, st))
  {
    hide IsPowerOf2;
    if st.Append? {
      PutAllKeepsOthers(s.payload, s.written, s.tail, st.bytes);
    }
  }

  /** The position the reader has come to, from `t0`. */
  function Position(log: seq<Delivery>, t0: nat): nat {
    if log == [] then t0
    else
      match log[|log| - 1]
      case Delivered(bytes) => Position(log[..|log| - 1], t0) + |bytes|
      case Skipped(_, to) => to
  }

  /** The bytes of a delivery, a stretch passed over being read off from what was written. */
  function BytesOf(d: Delivery, written: seq<Byte>): seq<Byte> {
    match d
    case Delivered(bytes) => bytes
    case Skipped(from, to) => if from <= to <= |written| then written[from..to] else []
  }

  /** All deliveries end to end. */
  function Spelled(log: seq<Delivery>, written: seq<Byte>): seq<Byte> {
    if log == [] then [] else Spelled(log[..|log| - 1], written) + BytesOf(log[|log| - 1], written)
  }

  /** Every stretch passed over begins where the deliveries before it ended. */
  ghost predicate SkipsInPlace(log: seq<Delivery>, t0: nat, limit: nat) {
    forall k :: 0 <= k < |log| && log[k].Skipped? ==> log[k].from == Position(log[..k], t0) <= log[k].to <= limit
  }

  /** The books of a reader that started at `t0`. */
  ghost predicate Accounted(s: State, t0: nat) {
    && ValidState(s) && t0 <= s.tail
    && Position(s.log, t0) == s.tail
    && SkipsInPlace(s.log, t0, s.head)
    && Spelled(s.log, s.written) == s.written[t0..s.tail]
  }

  lemma LogGrows(log: seq<Delivery>, d: Delivery, written: seq<Byte>, t0: nat)
    ensures Spelled(log + [d], written) == Spelled(log, written) + BytesOf(d, written)
    ensures Position(log + [d], t0) == match d case Delivered(bytes) => Position(log, t0) + |bytes| case Skipped(_, to) => to
  {
    assert (log + [d])[..|log + [d]| - 1] == log;
  }

  lemma SkipsOfPrefix(log: seq<Delivery>, t0: nat, limit: nat)
    requires SkipsInPlace(log, t0, limit) && log != []
    ensures SkipsInPlace(log[..|log| - 1], t0, limit)
    ensures var d := log[|log| - 1];
            d.Skipped? ==> d.from <= d.to <= limit
  {
    hide Position;
    assert forall k :: 0 <= k < |log| - 1 ==> log[..|log| - 1][..k] == log[..k];
  }

  lemma BytesKept(d: Delivery, written: seq<Byte>, more: seq<Byte>)
    requires d.Skipped? ==> d.from <= d.to <= |written|
    ensures BytesOf(d, written + more) == BytesOf(d, written)
  {
    if d.Skipped? {
      assert (written + more)[d.from..d.to] == written[d.from..d.to];
    }
  }

  /** Appending bytes does not change what the deliveries so far spell. */
  lemma {:induction false} SpelledKept(log: seq<Delivery>, written: seq<Byte>, more: seq<Byte>, t0: nat, limit: nat)
    requires SkipsInPlace(log, t0, limit) && limit <= |written|
    ensures Spelled(log, written + more) == Spelled(log, written)
    decreases |log|
  {
    hide SkipsInPlace, BytesOf;
    if log != [] {
      SkipsOfPrefix(log, t0, limit);
      SpelledKept(log[..|log| - 1], written, more, t0, limit);
      BytesKept(log[|log| - 1], written, more);
    }
  }

  lemma SkipsKept(log: seq<Delivery>, d: Delivery, t0: nat, limit: nat, limit': nat)
    requires SkipsInPlace(log, t0, limit) && limit <= limit'
    requires d.Skipped? ==> d.from == Position(log, t0) <= d.to <= limit'
    ensures SkipsInPlace(log + [d], t0, limit') && SkipsInPlace(log, t0, limit')
  {
    assert forall k :: 0 <= k <= |log| ==> (log + [d])[..k] == log[..k];
    assert log[..|log|] == log;
  }

  lemma ReadIsAccounted(s: State, t0: nat, sz: nat)
    requires Accounted(s, t0)
    ensures Accounted(Apply(s, Read(sz)), t0)
  {
    hide IsPowerOf2, Holds, SkipsInPlace, Spelled, Position, Pieces;
    ApplyKeepsValid(s, Read(sz));
    HoldsBounds(s.payload, s.written, s.tail);
    if sz <= s.head - s.tail {
      PiecesAreWritten(s.payload, s.written, s.tail, sz);
      var d := Delivered(Pieces(s.payload, s.tail, sz));
      LogGrows(s.log, d, s.written, t0);
      SkipsKept(s.log, d, t0, s.head, s.head);
      assert s.written[t0..s.tail] + s.written[s.tail..s.tail + sz] == s.written[t0..s.tail + sz];
    }
  }

  lemma ConsumeAllIsAccounted(s: State, t0: nat)
    requires Accounted(s, t0)
    ensures Accounted(Apply(s, ConsumeAll), t0)
  {
    hide IsPowerOf2, Holds, SkipsInPlace, Spelled, Position;
    ApplyKeepsValid(s, ConsumeAll);
    HoldsBounds(s.payload, s.written, s.tail);
    var d := Skipped(s.tail, s.head);
    LogGrows(s.log, d, s.written, t0);
    SkipsKept(s.log, d, t0, s.head, s.head);
    assert s.written[t0..s.tail] + s.written[s.tail..s.head] == s.written[t0..s.head];
  }

  lemma AppendIsAccounted(s: State, t0: nat, bytes: seq<Byte>)
    requires Accounted(s, t0) && Enabled(s, Append(bytes))
    ensures Accounted(Apply(s, Append(bytes)), t0)
  {
    hide IsPowerOf2, Holds, SkipsInPlace, Spelled, Position;
    ApplyKeepsValid(s, Append(bytes));
    HoldsBounds(s.payload, s.written, s.tail);
    SpelledKept(s.log, s.written, bytes, t0, s.head);
    SkipsKept(s.log, Delivered([]), t0, s.head, s.head + |bytes|);
    assert (s.written + bytes)[t0..s.tail] == s.written[t0..s.tail];
  }

  ghost predicate IsRun(run: seq<State>) {
    && run != [] && ValidState(run[0]) && run[0].log == []
    && forall i :: 0 <= i < |run| - 1 ==> Follows(run[i], run[i + 1])
  }

  ghost predicate Follows(s: State, s': State) {
    ValidState(s) && exists st :: Enabled(s, st) && s' == Apply(s, st)
  }

  /** The ring is a FIFO. In every run of reads, refused reads, appends and skips, what was delivered and
      what was passed over, end to end, is what the kernel wrote from the first tail to the present one;
      each stretch passed over begins where the deliveries before it ended. */
  lemma {:induction false} DeliveriesAreWhatWasWritten(run: seq<State>, n: nat)
    requires IsRun(run) && n < |run|
    ensures var s, t0 := run[n], run[0].tail;
            && t0 <= s.tail <= |s.written|
            && Spelled(s.log, s.written) == s.written[t0..s.tail]
            && SkipsInPlace(s.log, t0, s.head) && Accounted(s, t0)
    decreases n
  {
    hide ValidState, Apply, Enabled, SkipsInPlace, Spelled, Position;
    if n == 0 {
      EmptyIsAccounted(run[0]);
    } else {
      DeliveriesAreWhatWasWritten(run, n - 1);
      assert Follows(run[n - 1], run[n - 1 + 1]);
      var st :| Enabled(run[n - 1], st) && run[n] == Apply(run[n - 1], st);
      match st {
        case Read(sz) => ReadIsAccounted(run[n - 1], run[0].tail, sz);
        case Append(bytes) => AppendIsAccounted(run[n - 1], run[0].tail, bytes);
        case ConsumeAll => ConsumeAllIsAccounted(run[n - 1], run[0].tail);
      }
    }
    ValidBounds(run[n]);
  }

  lemma EmptyIsAccounted(s: State)
    requires ValidState(s) && s.log == []
    ensures Accounted(s, s.tail)
  {
  }

  lemma ValidBounds(s: State)
    requires ValidState(s)
    ensures s.tail <= s.head == |s.written|
  {
  }

  /** The bytes delivered, end to end. */
  function Received(log: seq<Delivery>): seq<Byte> {
    if log == [] then []
    else Received(log[..|log| - 1]) + if log[|log| - 1].Delivered? then log[|log| - 1].bytes else []
  }

  ghost predicate NothingSkipped(log: seq<Delivery>) {
    forall k :: 0 <= k < |log| ==> log[k].Delivered?
  }

  lemma {:induction false} ReceivedIsSpelled(log: seq<Delivery>, written: seq<Byte>)
    requires NothingSkipped(log)
    ensures Received(log) == Spelled(log, written)
    decreases |log|
  {
    if log != [] {
      ReceivedIsSpelled(log[..|log| - 1], written);
    }
  }

  /** In every run without a skip the reads alone, end to end, are what was written. */
  lemma ReadsAreWhatWasWritten(run: seq<State>, n: nat)
    requires IsRun(run) && n < |run| && NothingSkipped(run[n].log)
    ensures run[0].tail <= run[n].tail <= |run[n].written|
    ensures Received(run[n].log) == run[n].written[run[0].tail..run[n].tail]
  {
    hide IsRun, ValidState, Spelled, Received;
    DeliveriesAreWhatWasWritten(run, n);
    ReceivedIsSpelled(run[n].log, run[n].written);
  }

  // ---------- the functions over the mapped page ----------

  lemma HoldsBounds(payload: seq<Byte>, written: seq<Byte>, tail: nat)
    requires Holds(payload, written, tail)
    ensures payload != [] && tail <= |written| <= tail + |payload|
  {
  }

  method Memcpy(buf: array<Byte>, at: nat, bytes: seq<Byte>)
    requires at + |bytes| <= buf.Length
    modifies buf
    ensures buf[..at] == old(buf[..at]) && buf[at..at + |bytes|] == bytes && buf[at + |bytes|..] == old(buf[at + |bytes|..])
  {
    forall i | 0 <= i < |bytes| {
      buf[at + i] := bytes[i];
    }
  }

  /** The beginning, and the leftover when the read wraps. */
  method CopyPieces(buf: array<Byte>, first: seq<Byte>, second: seq<Byte>)
    requires |first| + |second| <= buf.Length
    modifies buf
    ensures buf[..|first| + |second|] == first + second && buf[|first| + |second|..] == old(buf[|first| + |second|..])
  {
    Memcpy(buf, 0, first);
    if |second| > 0 {
      Memcpy(buf, |first|, second);
    }
    assert buf[..|first| + |second|] == buf[..|first|] + buf[|first|..|first| + |second|];
  }

  lemma ValidParts(s: State)
    requires ValidState(s)
    ensures IsPowerOf2(|s.payload|) && s.head == |s.written| && Holds(s.payload, s.written, s.tail)
  {
  }

  /** A read within what is there delivers the next bytes written. */
  lemma ReadStep(s: State, sz: nat)
    requires ValidState(s)
    ensures ValidState(Apply(s, Read(sz)))
    ensures s.tail <= s.head
    ensures Apply(s, Read(sz)) ==
              if sz > s.head - s.tail then s
              else s.(tail := s.tail + sz, log := s.log + [Delivered(s.written[s.tail..s.tail + sz])])
  {
    hide IsPowerOf2, Holds, Pieces;
    ApplyKeepsValid(s, Read(sz));
    HoldsBounds(s.payload, s.written, s.tail);
    if sz <= s.head - s.tail {
      PiecesAreWritten(s.payload, s.written, s.tail, sz);
    }
  }

  class Ring {
    const payload: array<Byte>
    var dataHead: nat
    var dataTail: nat
    ghost var written: seq<Byte>
    ghost var log: seq<Delivery>

    ghost function View(): State
      reads this, payload
    {
      State(payload[..], dataHead, dataTail, written, log)
    }

    ghost predicate Valid()
      reads this, payload
    {
      ValidState(View())
    }

    constructor (size: nat)
      requires IsPowerOf2(size)
      ensures Valid() && fresh(payload) && payload.Length == size && dataHead == dataTail == 0 && log == []
    {
      payload := new Byte[size](_ => 0);
      dataHead, dataTail, written, log := 0, 0, [], [];
    }

    /** The copying part of ReadMmapBuffer: up to the end of the payload, then from its beginning. */
    method CopyOut(buf: array<Byte>, sz: nat)
      requires Holds(payload[..], written, dataTail) && IsPowerOf2(payload.Length)
      requires sz <= |written| - dataTail && sz <= buf.Length && buf != payload
      modifies buf
      ensures buf[..sz] == written[dataTail..dataTail + sz] && buf[sz..] == old(buf[sz..])
    {
      hide Holds, IsPowerOf2, And;
      HoldsBounds(payload[..], written, dataTail);
      var pgmsk := payload.Length - 1;
      MaskIsRemainder(dataTail, payload.Length);
      var tail := And(dataTail, pgmsk);
      var c := pgmsk + 1 - tail;
      var m := if c < sz then c else sz;
      PiecesAreNext(payload[..], written, dataTail, sz);
      CopyPieces(buf, payload[tail..tail + m], payload[..sz - m]);
    }

    /** ReadMmapBuffer: the next `sz` bytes written and not yet read, or a refusal that changes nothing. */
    method ReadMmapBuffer(buf: array<Byte>, sz: nat) returns (r: int)
      requires Valid() && sz <= buf.Length && buf != payload
      modifies this`dataTail, this`log, buf
      ensures Valid() && View() == Apply(old(View()), Read(sz))
      ensures r == if sz > dataHead - old(dataTail) then -1 else 0
      ensures r == -1 ==> buf[..] == old(buf[..])
      ensures r == 0 ==> buf[..sz] == written[old(dataTail)..dataTail] && buf[sz..] == old(buf[sz..])
    {
      hide Holds, IsPowerOf2, ValidState, Apply;
      ReadStep(View(), sz);
      ValidParts(View());
      var availSz := dataHead - dataTail;
      if sz > availSz {
        return -1;
      }
      ghost var bytes := written[dataTail..dataTail + sz];
      CopyOut(buf, sz);
      log, dataTail := log + [Delivered(bytes)], dataTail + sz;
      return 0;
    }

    /** ConsumeAllRingBufferData. */
    method ConsumeAllData()
      requires Valid()
      modifies this`dataTail, this`log
      ensures Valid() && View() == Apply(old(View()), ConsumeAll)
    {
      ApplyKeepsValid(View(), ConsumeAll);
      log := log + [Skipped(dataTail, dataHead)];
      dataTail := dataHead;
    }

    /** The kernel appends bytes, one after another. */
    method AppendBytes(bytes: seq<Byte>)
      requires Valid() && |bytes| <= payload.Length - (dataHead - dataTail)
      modifies this`dataHead, this`written, payload
      ensures Enabled(old(View()), Append(bytes)) && Valid() && View() == Apply(old(View()), Append(bytes))
    {
      hide Holds, IsPowerOf2;
      ApplyKeepsValid(View(), Append(bytes));
      HoldsBounds(payload[..], written, dataTail);
      var i := 0;
      ghost var p, h, w := payload[..], dataHead, written;
      while i < |bytes|
        invariant 0 <= i <= |bytes| && dataHead == h + i && written == w + bytes[..i]
        invariant dataTail == old(dataTail) && log == old(log)
        invariant PutAll(payload[..], dataHead, bytes[i..]) == PutAll(p, h, bytes)
      {
        ghost var was := payload[..];
        payload[dataHead % payload.Length] := bytes[i];
        assert payload[..] == was[dataHead % |was| := bytes[i]];
        assert bytes[i..][0] == bytes[i] && bytes[i..][1..] == bytes[i + 1..];
        written, dataHead := written + [bytes[i]], dataHead + 1;
        i := i + 1;
      }
      assert bytes[..i] == bytes && bytes[i..] == [];
    }
  }
}
