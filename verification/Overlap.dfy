/** How a spy compares a watched access with the sample it was armed for: the overlap of the two
    address ranges, the offsets into the two snapshots, and the byte comparison. */
module Overlap {
  import opened Common

  const HALF := 0x8000_0000_0000_0000

  type Word = x: int | 0 <= x < ADDRESS_SPACE

  /** The bytes found at the snapshot's pointer plus an offset. */
  type Snapshot = int -> Byte

  datatype Access = LOAD | STORE | LOAD_AND_STORE | UNKNOWN

  datatype Float = SINGLE | DOUBLE | OTHER | NOT_FLOAT

  function Signed(x: Word): int {
    if x < HALF then x else x - ADDRESS_SPACE
  }

  predicate SameHalf(a: Word, b: Word) {
    a < HALF <==> b < HALF
  }

  function Min(x: int, y: int): int {
    if x < y then x else y
  }

  function GetOverlapBytes(a: Word, aLen: nat, b: Word, bLen: nat): int {
    if a >= b then Min(aLen, bLen - (Signed(a) - Signed(b))) else Min(bLen, aLen - (Signed(b) - Signed(a)))
  }

  /** FIRST_OVERLAPPED_BYTE_OFFSET_IN_FIRST; with the arguments exchanged, ..._IN_SECOND. */
  function OffsetInFirst(a: Word, b: Word): int {
    if Signed(a) >= Signed(b) then 0 else Signed(b) - Signed(a)
  }

  /** The addresses of a range. */
  ghost function Span(lo: int, n: nat): (r: set<int>)
    ensures |r| == n && forall x :: x in r <==> lo <= x < lo + n
  {
    if n == 0 then {} else Span(lo, n - 1) + {lo + n - 1}
  }

  /** The addresses of both ranges. */
  ghost function Shared(a: int, aLen: nat, b: int, bLen: nat): set<int> {
    Span(a, aLen) * Span(b, bLen)
  }

  /** The macro is the size of the intersection, and not positive exactly when there is none. */
  lemma OverlapBytesAreShared(a: Word, aLen: nat, b: Word, bLen: nat)
    requires SameHalf(a, b)
    ensures var n := GetOverlapBytes(a, aLen, b, bLen);
            |Shared(a, aLen, b, bLen)| == if n > 0 then n else 0
    ensures var n := GetOverlapBytes(a, aLen, b, bLen);
            n > 0 ==> forall x :: x in Shared(a, aLen, b, bLen) <==> var top := if a >= b then a else b; top <= x < top + n
  {
    var n, top := GetOverlapBytes(a, aLen, b, bLen), if a >= b then a else b;
    if n > 0 {
      assert Shared(a, aLen, b, bLen) == Span(top, n);
    } else {
      assert Shared(a, aLen, b, bLen) == {};
    }
  }

  lemma SharedIffCross(a: int, aLen: nat, b: int, bLen: nat)
    requires 0 < aLen && 0 < bLen
    ensures Shared(a, aLen, b, bLen) != {} <==> a + aLen > b && b + bLen > a
  {
    if a + aLen > b && b + bLen > a {
      assert (if a >= b then a else b) in Shared(a, aLen, b, bLen);
    } else {
      assert forall x :: x !in Shared(a, aLen, b, bLen);
    }
  }

  /** Away from the top of the address space the overlap test says whether non-empty ranges meet. */
  lemma OverlapTestIsExact(a: Word, aLen: nat, b: Word, bLen: nat)
    requires 0 < aLen && 0 < bLen && a + aLen < ADDRESS_SPACE && b + bLen < ADDRESS_SPACE
    ensures AddressesOverlap(a, aLen, b, bLen) <==> Shared(a, aLen, b, bLen) != {}
  {
    hide Shared;
    Unwrapped(a + aLen);
    Unwrapped(b + bLen);
    SharedIffCross(a, aLen, b, bLen);
  }

  /** The two offsets name one address exactly when no range starts below 2^63 and the other above. */
  lemma OffsetsNameOneAddress(a: Word, b: Word)
    ensures a + OffsetInFirst(a, b) == b + OffsetInFirst(b, a) <==> SameHalf(a, b)
    ensures SameHalf(a, b) ==> a + OffsetInFirst(a, b) == if a >= b then a else b
  {
  }

  /** `count` bytes agree, at these offsets. */
  ghost predicate Agree(cur: Snapshot, was: Snapshot, first: int, second: int, count: int) {
    forall i :: first <= i < first + count ==> cur(i) == was(i + (second - first))
  }

  lemma AgreeNext(cur: Snapshot, was: Snapshot, first: int, second: int, count: nat)
    requires Agree(cur, was, first, second, count)
    ensures Agree(cur, was, first, second, count + 1) <==> cur(first + count) == was(second + count)
    ensures cur(first + count) != was(second + count) ==> forall n :: n > count ==> !Agree(cur, was, first, second, n)
  {
    assert first + count + (second - first) == second + count;
  }

  lemma NoneDisagree(cur: Snapshot, was: Snapshot, first: int, second: int)
    ensures Agree(cur, was, first, second, 0)
  {
  }

  lemma ByteNext(x: nat)
    ensures (x % 256 + 1) % 256 == (x + 1) % 256
  {
  }

  /** The comparison loop: a byte counter, set back to zero by the first difference. */
  method CompareBytes(cur: Snapshot, was: Snapshot, first: int, second: int, overlapBytes: int) returns (redBytes: Byte)
    ensures redBytes == RedBytes(cur, was, first, second, overlapBytes)
  {
    hide Agree;
    redBytes := 0;
    var i, k := first, second;
    assert Agree(cur, was, first, second, 0) by { NoneDisagree(cur, was, first, second); }
    while i < first + overlapBytes
      invariant i - first == k - second && first <= i
      invariant overlapBytes > 0 ==> i <= first + overlapBytes
      invariant overlapBytes <= 0 ==> i == first
      invariant redBytes == (i - first) % 256
      invariant Agree(cur, was, first, second, i - first)
    {
      AgreeNext(cur, was, first, second, i - first);
      if cur(i) == was(k) {
        ByteNext(i - first);
        redBytes := (redBytes + 1) % 256;
      } else {
        redBytes := 0;
        break;
      }
      i, k := i + 1, k + 1;
    }
  }

  ghost function RedBytes(cur: Snapshot, was: Snapshot, first: int, second: int, overlapBytes: int): Byte {
    if overlapBytes > 0 && Agree(cur, was, first, second, overlapBytes) then overlapBytes % 256 else 0
  }

  /** What the spies read of an access. */
  datatype Event = Event(id: int, chain: seq<Frame>, fixedIP: int, addr: Word, len: nat, access: Access, float: Float, value: Snapshot)

  /** A call-chain frame; the method and file names take no part in frame equality. */
  datatype Frame = Frame(addr: int, line: int)

  datatype Verdict = NoOverlap | BadOffset | Red | Approx | Used

  predicate FloatPath(cur: Event, first: int, sample: Event, second: int, overlapBytes: int) {
    var size := if cur.float == SINGLE then 4 else 8;
    && (cur.float == SINGLE || cur.float == DOUBLE)
    && overlapBytes >= size && (sample.addr + second) % size == 0 && (cur.addr + first) % size == 0
  }

  /** The bytes of overlap: the trap's own address is used when its range meets the sample's. */
  function WatchOverlap(cur: Event, sample: Event, va: Word, watchLen: nat): int {
    var va' := if AddressesOverlap(cur.addr, cur.len, sample.addr, watchLen) then cur.addr else va;
    GetOverlapBytes(sample.addr, watchLen, va', cur.len)
  }

  /** The C ints `firstOffest` and `secondOffest`. */
  function FirstOffset(cur: Event, sample: Event): int {
    ToInt(OffsetInFirst(cur.addr, sample.addr))
  }

  function SecondOffset(cur: Event, sample: Event): int {
    ToInt(OffsetInFirst(sample.addr, cur.addr))
  }

  predicate OutOfBounds(first: int, second: int) {
    second < -16 || second > 16 || first > 16 || first < -16
  }

  /** The trap is compared as floating point: long enough an overlap, and both addresses aligned. Every
      other trap is compared byte by byte, floating-point accesses among them. */
  predicate ComparedAsFloat(cur: Event, sample: Event, va: Word, watchLen: nat) {
    FloatPath(cur, FirstOffset(cur, sample), sample, SecondOffset(cur, sample), ToInt(WatchOverlap(cur, sample, va, watchLen)))
  }

  /** RedSpy and LoadSpy: how one trap is classified. `close` is the floating-point comparison. */
  ghost function Judge(cur: Event, sample: Event, va: Word, watchLen: nat, close: bool): Verdict {
    var overlapBytes := ToInt(WatchOverlap(cur, sample, va, watchLen));
    var first, second := FirstOffset(cur, sample), SecondOffset(cur, sample);
    if overlapBytes <= 0 then NoOverlap
    else if OutOfBounds(first, second) then BadOffset
    else if FloatPath(cur, first, sample, second, overlapBytes) then (if close then Approx else Used)
    else if RedBytes(cur.value, sample.value, first, second, overlapBytes) != 0 then Red
    else Used
  }

  /** The classification as the spies compute it. */
  method Classify(cur: Event, sample: Event, va: Word, watchLen: nat, close: bool) returns (v: Verdict)
    ensures v == Judge(cur, sample, va, watchLen, close)
  {
    var overlapBytes := ToInt(WatchOverlap(cur, sample, va, watchLen));
    if overlapBytes <= 0 {
      return NoOverlap;
    }
    var first, second := FirstOffset(cur, sample), SecondOffset(cur, sample);
    if second < -16 || second > 16 || first > 16 || first < -16 {
      return BadOffset;
    }
    if FloatPath(cur, first, sample, second, overlapBytes) {
      return if close then Approx else Used;
    }
    var redBytes := CompareBytes(cur.value, sample.value, first, second, overlapBytes);
    return if redBytes != 0 then Red else Used;
  }

  const LONGEST_ACCESS := 0xffff_fff0

  /** The access meets the watched range, in one half of the address space and below its top. */
  ghost predicate Meets(cur: Event, sample: Event, watchLen: nat) {
    && SameHalf(cur.addr, sample.addr) && cur.addr + cur.len < ADDRESS_SPACE && sample.addr + watchLen < ADDRESS_SPACE
    && Shared(cur.addr, cur.len, sample.addr, watchLen) != {}
  }

  /** The byte a snapshot taken at `base` holds for address `x`. */
  function ByteAt(v: Snapshot, base: int, x: int): Byte {
    v(x - base)
  }

  /** The snapshots hold the same byte for every address of both accesses. */
  ghost predicate SameBytes(cur: Event, sample: Event, watchLen: nat) {
    forall x :: x in Shared(cur.addr, cur.len, sample.addr, watchLen) ==>
      ByteAt(cur.value, cur.addr, x) == ByteAt(sample.value, sample.addr, x)
  }

  lemma MeetsMeasured(cur: Event, sample: Event, va: Word, watchLen: nat)
    requires Meets(cur, sample, watchLen)
    ensures WatchOverlap(cur, sample, va, watchLen) == |Shared(cur.addr, cur.len, sample.addr, watchLen)| > 0
    ensures WatchOverlap(cur, sample, va, watchLen) == GetOverlapBytes(cur.addr, cur.len, sample.addr, watchLen)
  {
    var x :| x in Shared(cur.addr, cur.len, sample.addr, watchLen);
    OverlapTestIsExact(cur.addr, cur.len, sample.addr, watchLen);
    OverlapBytesAreShared(cur.addr, cur.len, sample.addr, watchLen);
  }

  ghost predicate SameAt(cur: Snapshot, a: int, was: Snapshot, b: int, top: int, n: int) {
    forall x :: top <= x < top + n ==> ByteAt(cur, a, x) == ByteAt(was, b, x)
  }

  /** Agreement at offsets is agreement at addresses. */
  lemma AgreeByAddress(cur: Snapshot, was: Snapshot, a: int, b: int, top: int, n: int)
    ensures Agree(cur, was, top - a, top - b, n) <==> SameAt(cur, a, was, b, top, n)
  {
    if Agree(cur, was, top - a, top - b, n) {
      forall x | top <= x < top + n ensures ByteAt(cur, a, x) == ByteAt(was, b, x) {
        assert x - b == x - a + (top - b - (top - a));
      }
    } else {
      var i :| top - a <= i < top - a + n && cur(i) != was(i + (top - b - (top - a)));
      assert ByteAt(cur, a, i + a) != ByteAt(was, b, i + a);
    }
  }

  lemma AgreeIsSameBytes(cur: Event, sample: Event, watchLen: nat)
    requires Meets(cur, sample, watchLen)
    ensures Agree(cur.value, sample.value, OffsetInFirst(cur.addr, sample.addr), OffsetInFirst(sample.addr, cur.addr),
                  GetOverlapBytes(cur.addr, cur.len, sample.addr, watchLen))
            <==> SameBytes(cur, sample, watchLen)
  {
    hide WatchOverlap, AddressesOverlap, GetOverlapBytes, Agree, OffsetInFirst, Shared;
    var n := GetOverlapBytes(cur.addr, cur.len, sample.addr, watchLen);
    var top := if cur.addr >= sample.addr then cur.addr else sample.addr;
    MeetsMeasured(cur, sample, 0, watchLen);
    OverlapBytesAreShared(cur.addr, cur.len, sample.addr, watchLen);
    OffsetsNameOneAddress(cur.addr, sample.addr);
    AgreeByAddress(cur.value, sample.value, cur.addr, sample.addr, top, n);
  }

  lemma SmallInt(x: int)
    ensures 0 <= x < 0x8000_0000 ==> ToInt(x) == x
    ensures 16 < x <= LONGEST_ACCESS - 1 ==> ToInt(x) < -16 || ToInt(x) > 16
  {
  }

  /** Of the two offsets one is 0; the other is below 8, or the trap's access starts far below the watch. */
  lemma OffsetsOfMeeting(cur: Event, sample: Event, watchLen: nat)
    requires Meets(cur, sample, watchLen) && IsWatchLength(watchLen) && cur.len <= LONGEST_ACCESS
    ensures OutOfBounds(FirstOffset(cur, sample), SecondOffset(cur, sample)) <==> sample.addr - cur.addr > 16
    ensures sample.addr - cur.addr <= 16 ==>
              FirstOffset(cur, sample) == OffsetInFirst(cur.addr, sample.addr) && SecondOffset(cur, sample) == OffsetInFirst(sample.addr, cur.addr)
  {
    hide ToInt;
    SharedIsClose(cur, sample, watchLen);
    SmallInt(OffsetInFirst(cur.addr, sample.addr));
    SmallInt(OffsetInFirst(sample.addr, cur.addr));
  }

  lemma SharedIsClose(cur: Event, sample: Event, watchLen: nat)
    requires Meets(cur, sample, watchLen)
    ensures cur.addr - sample.addr < watchLen && sample.addr - cur.addr < cur.len
  {
    var x :| x in Shared(cur.addr, cur.len, sample.addr, watchLen);
  }

  /** The overlap of an access with a watch is no longer than the watch, so the one-byte counter holds it. */
  lemma OverlapFits(cur: Event, sample: Event, va: Word, watchLen: nat)
    requires Meets(cur, sample, watchLen) && IsWatchLength(watchLen)
    ensures var n := WatchOverlap(cur, sample, va, watchLen);
            0 < n <= 8 && ToInt(n) == n && n == GetOverlapBytes(cur.addr, cur.len, sample.addr, watchLen)
  {
    hide WatchOverlap, Shared, AddressesOverlap;
    MeetsMeasured(cur, sample, va, watchLen);
    SmallInt(WatchOverlap(cur, sample, va, watchLen));
  }

  /** For accesses that meet a watch of a length a slot can have, compared byte by byte: redundant exactly
      when every shared address holds the same byte in both snapshots, as long as the access starts no
      more than 16 bytes below the watch; one that starts lower is dropped for its offset. */
  lemma RedundantIffSameBytes(cur: Event, sample: Event, va: Word, watchLen: nat, close: bool)
    requires Meets(cur, sample, watchLen) && IsWatchLength(watchLen) && cur.len <= LONGEST_ACCESS
    requires !ComparedAsFloat(cur, sample, va, watchLen)
    ensures Judge(cur, sample, va, watchLen, close) ==
              if sample.addr - cur.addr > 16 then BadOffset else if SameBytes(cur, sample, watchLen) then Red else Used
  {
    hide SameBytes, Meets, WatchOverlap, Agree, GetOverlapBytes, FirstOffset, SecondOffset, OutOfBounds, FloatPath, ToInt;
    OffsetsOfMeeting(cur, sample, watchLen);
    OverlapFits(cur, sample, va, watchLen);
    AgreeIsSameBytes(cur, sample, watchLen);
  }

  /** `n` shared bytes from address `x` hold a whole aligned value of the access's floating-point type. */
  predicate HoldsFloat(float: Float, n: int, x: int) {
    (float == SINGLE && n >= 4 && x % 4 == 0) || (float == DOUBLE && n >= 8 && x % 8 == 0)
  }

  lemma FloatPathIff(cur: Event, first: int, sample: Event, second: int, n: int, x: int)
    requires cur.addr + first == x && sample.addr + second == x
    ensures FloatPath(cur, first, sample, second, n) <==> HoldsFloat(cur.float, n, x)
  {
  }

  /** The verdict on any access that meets the watch, by the addresses both cover: too low a start is dropped
      for its offset; a whole aligned floating-point value is compared as such; all else byte by byte. */
  lemma VerdictOfMeeting(cur: Event, sample: Event, va: Word, watchLen: nat, close: bool)
    requires Meets(cur, sample, watchLen) && IsWatchLength(watchLen) && cur.len <= LONGEST_ACCESS
    ensures var shared := Shared(cur.addr, cur.len, sample.addr, watchLen);
            var x := if cur.addr >= sample.addr then cur.addr else sample.addr;
            Judge(cur, sample, va, watchLen, close) ==
              if sample.addr - cur.addr > 16 then BadOffset
              else if HoldsFloat(cur.float, |shared|, x) then (if close then Approx else Used)
              else if SameBytes(cur, sample, watchLen) then Red else Used
  {
    hide SameBytes, Meets, WatchOverlap, Agree, GetOverlapBytes, FirstOffset, SecondOffset, OutOfBounds, FloatPath, ToInt, Shared,
         HoldsFloat, OffsetInFirst;
    OffsetsOfMeeting(cur, sample, watchLen);
    OverlapFits(cur, sample, va, watchLen);
    MeetsMeasured(cur, sample, va, watchLen);
    MeetsOneHalf(cur, sample, watchLen);
    OffsetsNameOneAddress(cur.addr, sample.addr);
    if sample.addr - cur.addr <= 16 {
      var x := if cur.addr >= sample.addr then cur.addr else sample.addr;
      FloatPathIff(cur, FirstOffset(cur, sample), sample, SecondOffset(cur, sample), WatchOverlap(cur, sample, va, watchLen), x);
      if !ComparedAsFloat(cur, sample, va, watchLen) {
        RedundantIffSameBytes(cur, sample, va, watchLen, close);
      }
    }
  }

  lemma MeetsOneHalf(cur: Event, sample: Event, watchLen: nat)
    requires Meets(cur, sample, watchLen)
    ensures SameHalf(cur.addr, sample.addr)
  {
  }

  lemma Measured(a: Word, aLen: nat, b: Word, bLen: nat)
    requires SameHalf(a, b) && aLen <= 8 && -0x8000_0000 < a - b < 0x8000_0000
    ensures ToInt(GetOverlapBytes(a, aLen, b, bLen)) > 0 <==> Shared(b, bLen, a, aLen) != {}
  {
    hide Shared, GetOverlapBytes, ToInt;
    OverlapBytesAreShared(a, aLen, b, bLen);
    SharedEitherWay(a, aLen, b, bLen);
    NoLongerThan(a, aLen, b, bLen);
    SignKept(GetOverlapBytes(a, aLen, b, bLen));
  }

  lemma SharedEitherWay(a: int, aLen: nat, b: int, bLen: nat)
    ensures Shared(a, aLen, b, bLen) == Shared(b, bLen, a, aLen)
  {
  }

  lemma SignKept(x: int)
    requires -0x8000_0000 < x <= 8
    ensures ToInt(x) == x
  {
  }

  lemma NoLongerThan(a: Word, aLen: nat, b: Word, bLen: nat)
    requires SameHalf(a, b) && -0x8000_0000 < a - b < 0x8000_0000
    ensures -0x8000_0000 < GetOverlapBytes(a, aLen, b, bLen) <= aLen
  {
  }

  /** "No overlap" is said exactly when the watch shares no address with the access as decoded, nor with one
      of that length at the address the trap reported; the latter lies within the reach of a C int. */
  lemma NoOverlapIff(cur: Event, sample: Event, va: Word, watchLen: nat, close: bool)
    requires IsWatchLength(watchLen) && SameHalf(cur.addr, sample.addr) && SameHalf(va, sample.addr)
    requires cur.addr + cur.len < ADDRESS_SPACE && sample.addr + watchLen < ADDRESS_SPACE
    requires -0x8000_0000 < va - sample.addr < 0x8000_0000
    ensures Judge(cur, sample, va, watchLen, close) == NoOverlap <==>
              Shared(cur.addr, cur.len, sample.addr, watchLen) == {} && Shared(va, cur.len, sample.addr, watchLen) == {}
  {
    hide ToInt, GetOverlapBytes, FirstOffset, SecondOffset, OutOfBounds, FloatPath, RedBytes, Shared, AddressesOverlap;
    Measured(sample.addr, watchLen, va, cur.len);
    if cur.len > 0 {
      OverlapTestIsExact(cur.addr, cur.len, sample.addr, watchLen);
      if Meets(cur, sample, watchLen) { OverlapFits(cur, sample, va, watchLen); }
    } else {
      EmptyAccess(cur, sample, va, watchLen);
      if AddressesOverlap(cur.addr, cur.len, sample.addr, watchLen) { Measured(sample.addr, watchLen, cur.addr, cur.len); }
    }
  }

  lemma EmptyAccess(cur: Event, sample: Event, va: Word, watchLen: nat)
    requires cur.len == 0 && sample.addr + watchLen < ADDRESS_SPACE
    ensures Shared(cur.addr, cur.len, sample.addr, watchLen) == {} && Shared(va, cur.len, sample.addr, watchLen) == {}
    ensures AddressesOverlap(cur.addr, cur.len, sample.addr, watchLen) ==> sample.addr < cur.addr < sample.addr + watchLen
  {
    Unwrapped(cur.addr);
    Unwrapped(sample.addr + watchLen);
  }
}
