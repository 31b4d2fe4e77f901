/**
 The carry-less 32-bit interval of the range coder: narrowing by a slice of a
 frequency total, and the normalisation loop that emits the settled top bytes.
 */
module Interval {
  import opened Words

  const TOP: int := 0x100_0000
  const BOTTOM: int := 0x1_0000

  /** The coder's `low` and `range` registers. */
  datatype Interval = Interval(low: nat, range: nat)

  /** What one coding step selects: `count` of `total` parts, starting at `under`. */
  datatype Slice = Slice(under: nat, count: nat, total: nat)

  const FULL := Interval(0, 0xFFFF_FFFF)

  predicate ValidSlice(s: Slice) {
    1 <= s.count && s.under + s.count <= s.total < BOTTOM
  }

  /** Never empty, never past 2^32; when it ends exactly at 2^32 (where the
      32-bit sum wraps to zero) its first byte is not zero. */
  predicate Valid(i: Interval) {
    && 1 <= i.range
    && i.low + i.range <= TWO32
    && (i.low + i.range == TWO32 ==> i.low >= TOP)
  }

  predicate Ready(i: Interval) {
    Valid(i) && i.range >= BOTTOM
  }

  /** The test `(low ^ (low + range)) >= TOP` on 32-bit words: the top bytes differ. */
  predicate TopsDiffer(i: Interval)
    requires Valid(i)
  {
    i.low / TOP != U32(i.low + i.range) / TOP
  }

  // ----- the same on 32-bit words

  function Number(a: bv32): int {
    a as int
  }

  function Word(n: u32): bv32 {
    n as bv32
  }

  lemma WordNumber(a: bv32)
    ensures 0 <= Number(a) < TWO32 && Word(Number(a)) == a
  {
  }

  function TopByte(a: bv32): bv32 {
    a >> 24
  }

  lemma TopByteNumber(a: bv32)
    ensures Number(TopByte(a)) == Number(a) / TOP
  {
  }

  /** The test of the program, on the registers as 32-bit words. */
  predicate XorTest(a: bv32, b: bv32) {
    (a ^ b) >= 0x0100_0000
  }

  lemma XorTestTops(a: bv32, b: bv32)
    ensures XorTest(a, b) <==> TopByte(a) != TopByte(b)
  {
    assert (a ^ b) >> 24 == (a >> 24) ^ (b >> 24);
  }

  /** On registers that hold an interval it tells whether the top bytes differ. */
  lemma XorTestComparesTopBytes(i: Interval, low: bv32, high: bv32)
    requires Valid(i) && Number(low) == i.low && Number(high) == U32(i.low + i.range)
    ensures XorTest(low, high) <==> TopsDiffer(i)
  {
    hide Number, Word, TopByte, XorTest, U32;
    XorTestTops(low, high);
    TopByteNumber(low);
    TopByteNumber(high);
    WordNumber(TopByte(low));
    WordNumber(TopByte(high));
  }

  /** The top bytes differ exactly when the interval reaches past its 2^24 block. */
  lemma TopsDifferMeansCrossing(i: Interval)
    requires Valid(i)
    ensures TopsDiffer(i) <==> i.low % TOP + i.range >= TOP
  {
    var a, b := i.low / TOP, i.low % TOP;
    assert i.low == a * TOP + b;
    if b + i.range < TOP {
      assert i.low + i.range == a * TOP + (b + i.range) && (a + 1) * TOP <= TWO32;
    } else if i.low + i.range == TWO32 {
      assert U32(TWO32) == 0;
      assert a >= 1;
    } else {
      assert i.low + i.range >= (a + 1) * TOP;
    }
  }

  predicate Settled(i: Interval)
    requires Valid(i)
  {
    TopsDiffer(i) && i.range >= BOTTOM
  }

  /** A short interval astride a top-byte boundary is cut back to the boundary. */
  function Squeeze(i: Interval): Interval
    requires Valid(i)
  {
    if TopsDiffer(i) && i.range < BOTTOM
    then Interval(i.low, ToBoundary(i.low))
    else i
  }

  /** `-low & (BOTTOM - 1)` on 32-bit words. */
  function ToBoundary(low: int): u16 {
    U32(-low) % BOTTOM
  }

  lemma ToBoundaryIsDistance(low: int)
    requires 0 <= low < TWO32 && low % TOP > TOP - BOTTOM
    ensures ToBoundary(low) == TOP - low % TOP
  {
    var a, d := low / TOP, TOP - low % TOP;
    assert low == (a + 1) * TOP - d;
    assert -low == -TWO32 + ((255 - a) * TOP + d);
    assert 0 <= (255 - a) * TOP + d < TWO32;
    assert U32(-low) == (255 - a) * TOP + d;
    assert (255 - a) * TOP + d == ((255 - a) * 256) * BOTTOM + d;
  }

  function Shift(i: Interval): Interval {
    Interval(U32(i.low * 256), U32(i.range * 256))
  }

  /** What holds before a byte is shifted out: the interval lies in one 2^24 block,
      and reaches the end of it only after it was cut back there. */
  predicate OneBlock(j: Interval) {
    && Valid(j)
    && j.low % TOP + j.range <= TOP
    && (j.low % TOP + j.range == TOP ==> j.range < BOTTOM)
  }

  lemma SqueezeKeeps(i: Interval)
    requires Valid(i) && !Settled(i)
    ensures OneBlock(Squeeze(i))
    ensures Squeeze(i).low == i.low && Squeeze(i).range <= i.range
  {
    TopsDifferMeansCrossing(i);
    if TopsDiffer(i) {
      ToBoundaryIsDistance(i.low);
      assert i.low == (i.low / TOP) * TOP + i.low % TOP;
    }
  }

  lemma ShiftKeeps(j: Interval)
    requires OneBlock(j)
    ensures Shift(j) == Interval((j.low % TOP) * 256, j.range * 256)
    ensures Valid(Shift(j)) && Shift(j).range > j.range
  {
    assert j.low == (j.low / TOP) * TOP + j.low % TOP;
    assert j.low * 256 == (j.low / TOP) * TWO32 + (j.low % TOP) * 256;
    assert (j.low % TOP) * 256 < TWO32;
    assert U32(j.low * 256) == (j.low % TOP) * 256;
  }

  /** Bounds the iterations of the normalisation loop: the range grows at every
      shift, except at one cut, after which the interval ends at 2^32 for good. */
  function Steps(i: Interval): nat
    requires Valid(i)
  {
    TWO32 - i.range + if i.low + i.range == TWO32 then 0 else TWO32
  }

  lemma ShiftSteps(i: Interval)
    requires Valid(i) && !Settled(i)
    ensures OneBlock(Squeeze(i)) && Valid(Shift(Squeeze(i)))
    ensures Steps(Shift(Squeeze(i))) < Steps(i)
  {
    SqueezeKeeps(i);
    ShiftKeeps(Squeeze(i));
    TopsDifferMeansCrossing(i);
    if TopsDiffer(i) {
      ToBoundaryIsDistance(i.low);
      assert i.low == (i.low / TOP) * TOP + i.low % TOP;
    }
  }

  /** The normalisation loop: the bytes it emits and the interval it stops at. */
  function Normalise(i: Interval): (r: (seq<byte>, Interval))
    requires Valid(i)
    ensures Ready(r.1)
    decreases Steps(i)
  {
    if Settled(i) then ([], i)
    else
      var j := Squeeze(i);
      ShiftSteps(i);
      var (bytes, k) := Normalise(Shift(j));
      ([j.low / TOP] + bytes, k)
  }

  function Narrow(i: Interval, s: Slice): (r: Interval)
    requires Ready(i) && ValidSlice(s)
    ensures Valid(r) && i.low <= r.low && r.low + r.range <= i.low + i.range
  {
    var q := i.range / s.total;
    NarrowStaysInside(i.range, s);
    Interval(i.low + s.under * q, q * s.count)
  }

  lemma NarrowStaysInside(range: nat, s: Slice)
    requires range >= BOTTOM && ValidSlice(s)
    ensures range / s.total >= 1
    ensures s.under * (range / s.total) >= 0
    ensures 1 <= (range / s.total) * s.count
    ensures s.under * (range / s.total) + (range / s.total) * s.count <= range
  {
    var q := range / s.total;
    DivWithin(range, s.total, 1, range + 1);
    assert range == q * s.total + range % s.total;
    MulMono(s.under + s.count, s.total, q);
    assert (s.under + s.count) * q == s.under * q + q * s.count;
    MulMono(1, s.count, q);
  }

  lemma DivWithin(d: nat, q: nat, lo: nat, hi: nat)
    requires q >= 1 && lo * q <= d < hi * q
    ensures lo <= d / q < hi
  {
    var r := d / q;
    assert d == r * q + d % q;
    if r < lo {
      MulMono(r + 1, lo, q);
    } else if r >= hi {
      MulMono(hi, r, q);
    }
  }

  lemma MulMono(a: int, b: int, q: nat)
    requires a <= b
    ensures a * q <= b * q
  {
  }

  /** The 32-bit quotient `(code - low) / (range / total)` the decoder looks up,
      stored in a 16-bit variable. */
  function Read(i: Interval, total: nat, code: nat): u16
    requires Ready(i) && 1 <= total < BOTTOM
  {
    ReadQuotient(i.range, total);
    U16(U32(code - i.low) / (i.range / total))
  }

  lemma ReadQuotient(range: nat, total: nat)
    requires range >= BOTTOM && 1 <= total < BOTTOM
    ensures range / total >= 1
  {
    NarrowStaysInside(range, Slice(0, 1, total));
  }

  predicate Holds(i: Interval, code: nat) {
    i.low <= code < i.low + i.range
  }

  /** A code inside the narrowed interval reads back a part of the slice. */
  lemma ReadFindsSlice(i: Interval, s: Slice, code: nat)
    requires Ready(i) && ValidSlice(s) && code < TWO32
    requires Holds(Narrow(i, s), code)
    ensures Holds(i, code)
    ensures s.under <= Read(i, s.total, code) < s.under + s.count
  {
    var q := i.range / s.total;
    NarrowStaysInside(i.range, s);
    var d := code - i.low;
    assert s.under * q <= d < s.under * q + q * s.count;
    assert U32(d) == d;
    assert (s.under + s.count) * q == s.under * q + q * s.count;
    DivWithin(d, q, s.under, s.under + s.count);
  }

  // The byte string seen as a number: the decoder's 32-bit window, zeros past the end.

  function At(s: seq<byte>, k: nat): byte {
    if k < |s| then s[k] else 0
  }

  function Window(s: seq<byte>): u32 {
    At(s, 0) * 0x100_0000 + At(s, 1) * 0x1_0000 + At(s, 2) * 0x100 + At(s, 3)
  }

  function Drop(s: seq<byte>, k: nat): seq<byte> {
    if k <= |s| then s[k..] else []
  }

  /** One more byte in front moves the window by one byte. */
  lemma WindowCons(b: byte, s: seq<byte>)
    ensures Window([b] + s) == b * TOP + Window(s) / 256
  {
    var t := [b] + s;
    assert forall k: nat :: k > 0 ==> At(t, k) == At(s, k - 1);
    assert At(t, 1) == At(s, 0) && At(t, 2) == At(s, 1) && At(t, 3) == At(s, 2);
  }

  /** Shifting the window left by one byte, as the decoder's `code <<= 8; code |= next`. */
  lemma WindowShift(s: seq<byte>)
    ensures Window(Drop(s, 1)) == U32(Window(s) * 256) + At(s, 4)
  {
    var t := Drop(s, 1);
    assert At(t, 0) == At(s, 1) && At(t, 1) == At(s, 2) && At(t, 2) == At(s, 3) && At(t, 3) == At(s, 4);
    assert Window(s) * 256 == At(s, 0) * TWO32 + (Window(t) - At(s, 4));
    assert 0 <= Window(t) - At(s, 4) < TWO32;
  }

  /** One shift, undone: a window inside the shifted interval, with the shifted-out
      byte put back in front, is inside the interval before the shift. */
  lemma ShiftHolds(j: Interval, rest: seq<byte>)
    requires OneBlock(j)
    requires Holds(Shift(j), Window(rest))
    ensures Holds(j, Window([j.low / TOP] + rest))
  {
    ShiftKeeps(j);
    WindowCons(j.low / TOP, rest);
    var w := Window(rest);
    DivWithin(w, 256, j.low % TOP, j.low % TOP + j.range);
    assert j.low == (j.low / TOP) * TOP + j.low % TOP;
  }

  /** If what follows the emitted bytes lies in the final interval, then the whole
      lies in the interval the loop started from: no emitted byte ever changes. */
  lemma {:induction false} NormaliseHolds(i: Interval, rest: seq<byte>)
    requires Valid(i)
    requires Holds(Normalise(i).1, Window(rest))
    ensures Holds(i, Window(Normalise(i).0 + rest))
    decreases Steps(i)
  {
    hide Window, Squeeze, Shift, U32, OneBlock;
    if Settled(i) {
      assert [] + rest == rest;
    } else {
      var j := Squeeze(i);
      ShiftSteps(i);
      SqueezeKeeps(i);
      var (bytes, k) := Normalise(Shift(j));
      NormaliseHolds(Shift(j), rest);
      assert ([j.low / TOP] + bytes) + rest == [j.low / TOP] + (bytes + rest);
      ShiftHolds(j, bytes + rest);
    }
  }
}
