/**
 * Byte-level vocabulary of the CCP4 map reader: bytes, raw 32-bit words, the
 * byte order of a file, signed 32-bit integers, Python slicing and the label
 * clean-up.  Floating-point fields are kept as their raw 32-bit words; only the
 * two float comparisons the reader makes against constants (0.0 and 90) are
 * decided, and both are exact on the bit pattern.
 */
module Ccp4Bytes {

  type Byte = b: int | 0 <= b < 256
  type Word = w: int | 0 <= w < 0x1_0000_0000

  const Space: Byte := 0x20

  /** The two byte orders `struct` is asked for: '<' and '>'. */
  datatype Endian = Little | Big

  /** The word whose least significant byte is `b0` and most significant is `b3`. */
  function Word4(b0: Byte, b1: Byte, b2: Byte, b3: Byte): Word {
    b0 + 256 * (b1 + 256 * (b2 + 256 * b3))
  }

  /** The least and the most significant byte can be read back from the word. */
  lemma Word4Bytes(b0: Byte, b1: Byte, b2: Byte, b3: Byte)
    ensures Word4(b0, b1, b2, b3) % 256 == b0 && Word4(b0, b1, b2, b3) / 0x100_0000 == b3
  {
    var w := Word4(b0, b1, b2, b3);
    assert w % 256 == b0 by {
      var q := b1 + 256 * (b2 + 256 * b3);
      assert w == b0 + 256 * q;
    }
    assert w / 0x100_0000 == b3 by {
      var low := b0 + 256 * b1 + 0x1_0000 * b2;
      assert w == low + 0x100_0000 * b3 && 0 <= low < 0x100_0000;
    }
  }

  /** The 32-bit word stored at `bs[off..off+4]` in byte order `e`. */
  function WordAt(bs: seq<Byte>, off: nat, e: Endian): Word
    requires off + 4 <= |bs|
  {
    match e
    case Little => Word4(bs[off], bs[off + 1], bs[off + 2], bs[off + 3])
    case Big => Word4(bs[off + 3], bs[off + 2], bs[off + 1], bs[off])
  }

  /** The four bytes that store `w` in byte order `e` (what a writer of the file produced). */
  function EncodeWord(w: Word, e: Endian): (bs: seq<Byte>)
    ensures |bs| == 4
  {
    var q1 := w / 256;
    var q2 := q1 / 256;
    var le := [w % 256, q1 % 256, q2 % 256, q2 / 256];
    match e
    case Little => le
    case Big => [le[3], le[2], le[1], le[0]]
  }

  /** Reading back a written word, in the order it was written, gives the word. */
  lemma {:induction false} WordRoundTrip(w: Word, e: Endian)
    ensures WordAt(EncodeWord(w, e), 0, e) == w
  {
    var q1 := w / 256;
    var q2 := q1 / 256;
    assert q2 == q2 % 256 + 256 * (q2 / 256);
    assert q1 == q1 % 256 + 256 * q2;
    assert w == w % 256 + 256 * q1;
  }

  /** The signed value of a 32-bit word in two's complement (struct code 'i'). */
  function Int32(w: Word): (i: int)
    ensures -0x8000_0000 <= i < 0x8000_0000
    ensures i < 0 <==> w >= 0x8000_0000
  {
    if w < 0x8000_0000 then w else w - 0x1_0000_0000
  }

  /** The signed value is congruent to the word modulo 2^32, so it keeps the word's bits. */
  lemma Int32Congruent(w: Word)
    ensures (Int32(w) + 0x1_0000_0000) % 0x1_0000_0000 == w
  {
  }

  /** A float word compares equal to 0.0 (both +0.0 and -0.0 do, and nothing else). */
  predicate IsFloatZero(w: Word) {
    w == 0 || w == 0x8000_0000
  }

  /** The only single-precision word equal to 90.0. */
  const Ninety: Word := 0x42B4_0000

  /** Python's normalisation of one slice bound `i` against a length `n`. */
  function SliceBound(i: int, n: nat): (r: nat)
    ensures r <= n
    ensures 0 <= i <= n ==> r == i
    ensures i > n ==> r == n
    ensures i < 0 ==> r == if i + n < 0 then 0 else i + n
  {
    if i < 0 then (if i + n < 0 then 0 else i + n)
    else if i > n then n
    else i
  }

  /** Python's `s[lo:hi]`, negative bounds counting from the end. */
  function PySlice<T>(s: seq<T>, lo: int, hi: int): (r: seq<T>)
    ensures |r| <= |s|
    ensures 0 <= lo <= hi <= |s| ==> r == s[lo..hi]
    ensures 0 <= lo <= |s| && hi >= |s| ==> r == s[lo..]
    ensures lo >= |s| ==> r == []
  {
    var a, b := SliceBound(lo, |s|), SliceBound(hi, |s|);
    if a < b then s[a..b] else []
  }

  /** Number of occurrences of `x` in `s`. */
  function Count(s: seq<Byte>, x: Byte): (n: nat)
    ensures n == multiset(s)[x]
  {
    if s == [] then 0
    else
      assert s == [s[0]] + s[1..];
      (if s[0] == x then 1 else 0) + Count(s[1..], x)
  }

  /**
   * `bytes.replace(b' ', b'')`: the label bytes with every space removed, in
   * order. Every other byte keeps its number of occurrences; that the order is
   * kept is RemoveSpacesAppend.
   */
  function RemoveSpaces(bs: seq<Byte>): (r: seq<Byte>)
    ensures Space !in r
    ensures forall b :: b in r <==> b in bs && b != Space
    ensures forall b :: multiset(r)[b] == if b == Space then 0 else multiset(bs)[b]
    ensures |r| + Count(bs, Space) == |bs|
  {
    if bs == [] then []
    else
      assert bs == [bs[0]] + bs[1..];
      if bs[0] == Space then RemoveSpaces(bs[1..])
      else [bs[0]] + RemoveSpaces(bs[1..])
  }

  /**
   * Removing the spaces of two pieces one after the other is removing them
   * from the whole: together with the counts above, this pins the result down
   * to the non-space bytes in their original order.
   */
  lemma {:induction false} RemoveSpacesAppend(a: seq<Byte>, b: seq<Byte>)
    ensures RemoveSpaces(a + b) == RemoveSpaces(a) + RemoveSpaces(b)
  {
    if a == [] {
      assert a + b == b;
    } else {
      assert (a + b)[0] == a[0] && (a + b)[1..] == a[1..] + b;
      RemoveSpacesAppend(a[1..], b);
    }
  }
}
