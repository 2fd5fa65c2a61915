/** The Block1 and Block2 options (section 2.2 of RFC 7959): a block number, a
    more bit and a size exponent in one integer. */
module CoapBlock {
  const BLOCK_NUM_MAX: nat := 0xFFFFF

  /** The block size of a size exponent. */
  function Size(szx: nat): (size: nat)
    ensures size >= 16
  {
    if szx == 0 then 16 else 2 * Size(szx - 1)
  }

  function Szx(option: nat): (szx: nat)
    ensures szx < 8
  {
    option % 8
  }

  function Num(option: nat): nat { option / 16 }

  predicate More(option: nat) { option % 16 / 8 == 1 }

  function Offset(option: nat): nat { Num(option) * Size(Szx(option)) }

  function BlockOption(num: nat, more: bool, szx: nat): nat {
    num * 16 + (if more then 8 else 0) + szx
  }

  lemma BlockOptionInverse(num: nat, more: bool, szx: nat)
    requires szx < 8
    ensures var v := BlockOption(num, more, szx); Num(v) == num && More(v) == more && Szx(v) == szx
  {
  }

  /** A number of 20 bits makes an option that fits three bytes. */
  lemma BlockOptionFits(num: nat, more: bool, szx: nat)
    requires num <= BLOCK_NUM_MAX && szx < 8
    ensures BlockOption(num, more, szx) < 0x100_0000
  {
  }

  /** How many whole blocks of a size there are in so many bytes. */
  function Blocks(bytes: nat, szx: nat): nat {
    QuotientAtLeast(bytes, 0, Size(szx));
    bytes / Size(szx)
  }

  // ------------------------------------------------------- sizes that shrink

  /** Whole blocks of a size make up the offset. */
  predicate Multiple(offset: nat, szx: nat) {
    offset % Size(szx) == 0
  }

  lemma MultipleIs(k: nat, size: nat)
    requires size > 0
    ensures k * size % size == 0 && k * size / size == k
  {
    DivUnique(k * size, k, size, 0);
  }

  lemma {:induction false} ProductMonotone(a: nat, b: nat, c: nat)
    requires a <= b
    ensures a * c <= b * c
    decreases b
  {
    if a < b {
      ProductMonotone(a, b - 1, c);
      assert b * c == (b - 1) * c + c;
    }
  }

  lemma ProductBelow(a: nat, b: nat, c: nat)
    ensures a < b ==> a * c + c <= b * c
  {
    if a < b {
      ProductMonotone(a + 1, b, c);
      assert (a + 1) * c == a * c + c;
    }
  }

  lemma DivUnique(n: nat, k: nat, size: nat, r: nat)
    requires size > 0 && n == k * size + r && r < size
    ensures n / size == k && n % size == r
  {
    var q := n / size;
    assert q * size <= n < q * size + size;
    ProductBelow(k, q, size);
    ProductBelow(q, k, size);
  }

  lemma OffsetOfQuotient(offset: nat, szx: nat)
    requires Multiple(offset, szx)
    ensures Blocks(offset, szx) * Size(szx) == offset
  {
  }

  lemma HalfMultiple(offset: nat, size: nat)
    requires size > 0 && offset % (2 * size) == 0
    ensures offset % size == 0
  {
    var k := offset / (2 * size);
    assert offset == k * (2 * size);
    assert k * (2 * size) == (2 * k) * size;
    MultipleIs(2 * k, size);
  }

  /** Blocks of a smaller size make up whatever blocks of a larger one do. */
  lemma {:induction false} ShrinkKeepsMultiple(offset: nat, szx: nat, smaller: nat)
    requires Multiple(offset, szx) && smaller <= szx
    ensures Multiple(offset, smaller)
    decreases szx
  {
    if smaller < szx {
      HalfMultiple(offset, Size(szx - 1));
      ShrinkKeepsMultiple(offset, szx - 1, smaller);
    }
  }

  lemma {:induction false} SizeMonotone(smaller: nat, szx: nat)
    requires smaller <= szx
    ensures Size(smaller) <= Size(szx)
    decreases szx
  {
    if smaller < szx {
      SizeMonotone(smaller, szx - 1);
    }
  }

  lemma QuotientAtLeast(n: nat, k: nat, size: nat)
    requires size > 0 && n >= k * size
    ensures n / size >= k
  {
    var q := n / size;
    assert n < q * size + size;
    ProductBelow(q, k, size);
  }

  /** Counted in a size not larger than the one it was sent with, the place
      behind a whole block is past that block's number. */
  lemma NumberIsPassed(offset: nat, szx: nat, smaller: nat, now: nat)
    requires Multiple(offset, szx) && smaller <= szx && offset + Size(szx) <= now
    ensures Blocks(offset, szx) < Blocks(now, smaller)
  {
    hide Size;
    var num, size, less := offset / Size(szx), Size(szx), Size(smaller);
    OffsetOfQuotient(offset, szx);
    SizeMonotone(smaller, szx);
    assert (num + 1) * size == num * size + size;
    assert less * (num + 1) == (num + 1) * less && size * (num + 1) == (num + 1) * size;
    ProductMonotone(less, size, num + 1);
    QuotientAtLeast(now, num + 1, less);
  }
}
