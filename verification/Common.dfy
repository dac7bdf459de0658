/** What the models share: bytes, pages, 64-bit addresses and remainders. */
module Common {

  datatype Option<+T> = None | Some(value: T)

  type Byte = x: int | 0 <= x < 256

  const PAGE_SIZE := 4096

  /** One more than the highest 64-bit address. */
  const ADDRESS_SPACE: int := 0x1_0000_0000_0000_0000

  predicate IsPowerOf2(n: int) {
    n == 1 || (n > 1 && n % 2 == 0 && IsPowerOf2(n / 2))
  }

  /** ADDRESSES_OVERLAP, its sums in 64 bits. */
  predicate AddressesOverlap(a: int, aLen: int, b: int, bLen: int) {
    (a + aLen) % ADDRESS_SPACE > b && (b + bLen) % ADDRESS_SPACE > a
  }

  lemma Unwrapped(x: int)
    requires 0 <= x < ADDRESS_SPACE
    ensures x % ADDRESS_SPACE == x
  {
  }

  /** The lengths a hardware watchpoint can have. */
  predicate IsWatchLength(len: int) {
    len == 1 || len == 2 || len == 4 || len == 8
  }

  /** What a C `int` holds after the assignment of a 64-bit value. */
  function ToInt(x: int): int {
    if x % 0x1_0000_0000 < 0x8000_0000 then x % 0x1_0000_0000 else x % 0x1_0000_0000 - 0x1_0000_0000
  }

  lemma Remainder(x: int, q: int, r: int, n: int)
    requires 0 <= r < n && x == q * n + r
    ensures x % n == r && x / n == q
  {
    var p, m := x / n, x % n;
    assert (p - q) * n == r - m;
    assert p - q >= 1 ==> (p - q) * n >= n;
    assert p - q <= -1 ==> (p - q) * n <= -n;
  }

  /** The position `i` places on from `pos` in a ring of `n`. */
  lemma RemainderNext(pos: nat, i: nat, n: int)
    requires n > 0 && i < n
    ensures (pos + i) % n == if pos % n + i < n then pos % n + i else pos % n + i - n
  {
    var q, w := pos / n, pos % n;
    if w + i < n {
      Remainder(pos + i, q, w + i, n);
    } else {
      assert pos + i == (q + 1) * n + (w + i - n);
      Remainder(pos + i, q + 1, w + i - n, n);
    }
  }
}
