/** Wrap-around arithmetic of the stream protocol: 32 bit sequence numbers and
    logical stamps are ordered by the sign of their 32 bit difference. */
module SequenceNumbers {
  const TWO_31: int := 0x8000_0000
  const TWO_32: int := 0x1_0000_0000

  /** The 32 bit word that stands for an unbounded number on the wire and in the C struct. */
  function Wrap(n: int): (word: int)
    ensures 0 <= word < TWO_32
    ensures exists k: int :: n == word + TWO_32 * k
  {
    assert n == n % TWO_32 + TWO_32 * (n / TWO_32);
    n % TWO_32
  }

  /** The cast from uint32_t to int32_t. */
  function AsInt32(word: int): int {
    if word < TWO_31 then word else word - TWO_32
  }

  predicate SequenceLess(lhs: int, rhs: int) {
    AsInt32(Wrap(lhs - rhs)) < 0
  }

  predicate SequenceLessEqual(lhs: int, rhs: int) {
    SequenceLess(lhs, rhs) || lhs == rhs
  }

  function SequenceMax(s1: int, s2: int): int {
    if SequenceLess(s1, s2) then s2 else s1
  }

  /** Two numbers whose order survives the wrap to 32 bits. */
  predicate Near(a: int, b: int) {
    -TWO_31 <= a - b < TWO_31
  }

  /** Near in both directions: less than half the number space apart. */
  predicate Comparable(a: int, b: int) {
    -TWO_31 < a - b < TWO_31
  }

  /** The wrap is a homomorphism, so copying, adding and subtracting on words
      is copying, adding and subtracting on the numbers they stand for. */
  lemma WrapHomomorphic(a: int, b: int)
    ensures Wrap(Wrap(a) + Wrap(b)) == Wrap(a + b)
    ensures Wrap(Wrap(a) - Wrap(b)) == Wrap(a - b)
  {
    var i, j := a / TWO_32, b / TWO_32;
    assert a == Wrap(a) + TWO_32 * i && b == Wrap(b) + TWO_32 * j;
    WrapShift(Wrap(a) + Wrap(b), i + j);
    WrapShift(Wrap(a) - Wrap(b), i - j);
  }

  lemma WrapShift(n: int, k: int)
    ensures Wrap(n + TWO_32 * k) == Wrap(n)
  {
    var q := n / TWO_32;
    assert n + TWO_32 * k == n % TWO_32 + TWO_32 * (q + k);
    DivModUnique(n + TWO_32 * k, q + k, n % TWO_32);
  }

  lemma DivModUnique(n: int, q: int, r: int)
    requires n == r + TWO_32 * q && 0 <= r < TWO_32
    ensures n % TWO_32 == r
  {
  }

  /** The signed difference of two words is the difference of the numbers,
      exactly as long as they are near each other. */
  lemma SignedDifferenceExact(a: int, b: int)
    ensures AsInt32(Wrap(Wrap(a) - Wrap(b))) == a - b <==> Near(a, b)
  {
    WrapHomomorphic(a, b);
    if 0 <= a - b < TWO_31 {
      DivModUnique(a - b, 0, a - b);
    } else if -TWO_31 <= a - b < 0 {
      DivModUnique(a - b, -1, a - b + TWO_32);
    }
  }

  /** Wrap-around comparison, maximum and equality agree with the integer ones
      for numbers that are near each other. */
  lemma OrderSurvivesWrap(a: int, b: int)
    requires Near(a, b)
    ensures SequenceLess(Wrap(a), Wrap(b)) <==> a < b
    ensures SequenceLessEqual(Wrap(a), Wrap(b)) <==> a <= b
    ensures SequenceMax(Wrap(a), Wrap(b)) == Wrap(if a < b then b else a)
    ensures Wrap(a) == Wrap(b) <==> a == b
  {
    SignedDifferenceExact(a, b);
    if Wrap(a) == Wrap(b) {
      assert Wrap(a) - Wrap(b) == 0;
      assert AsInt32(Wrap(0)) == 0;
    }
  }

  // The comparisons of the C code, on the numbers whose words it compares.

  predicate Less(a: int, b: int)
    ensures Near(a, b) ==> (Less(a, b) <==> a < b)
  {
    if Near(a, b) then OrderSurvivesWrap(a, b); SequenceLess(Wrap(a), Wrap(b)) else SequenceLess(Wrap(a), Wrap(b))
  }

  predicate LessEqual(a: int, b: int)
    ensures Near(a, b) ==> (LessEqual(a, b) <==> a <= b)
  {
    if Near(a, b) then OrderSurvivesWrap(a, b); SequenceLessEqual(Wrap(a), Wrap(b))
    else SequenceLessEqual(Wrap(a), Wrap(b))
  }

  predicate Same(a: int, b: int)
    ensures Near(a, b) ==> (Same(a, b) <==> a == b)
  {
    if Near(a, b) then OrderSurvivesWrap(a, b); Wrap(a) == Wrap(b) else Wrap(a) == Wrap(b)
  }

  /** The bound is tight: numbers exactly half the space apart are each less
      than the other. */
  lemma HalfwayIsUnordered(a: int)
    ensures SequenceLess(Wrap(a), Wrap(a + TWO_31)) && SequenceLess(Wrap(a + TWO_31), Wrap(a))
  {
    WrapHomomorphic(a, a + TWO_31);
    WrapHomomorphic(a + TWO_31, a);
    DivModUnique(-TWO_31, -1, TWO_31);
  }
}
