/**
 One short stream worked out to the byte: what the compressor makes of four times the same
 byte. It goes through the root, through contexts that know nothing and through those that do.
 */
module ReferenceStream {
  import opened Words
  import opened Interval
  import opened Contexts
  import opened RangeCoderSpec

  const A: byte := 97

  // ----- the registers

  lemma NarrowIs(i: Interval, s: Slice, j: Interval)
    requires Ready(i) && ValidSlice(s)
    requires j.low == i.low + s.under * (i.range / s.total) && j.range == i.range / s.total * s.count
    ensures Narrow(i, s) == j && Valid(j)
  {
  }

  /** Coding a slice when no byte is settled yet. */
  lemma CodeNone(i: Interval, s: Slice, j: Interval)
    requires Ready(i) && ValidSlice(s) && Narrow(i, s) == j
    requires j.low + j.range < TWO32 && j.low / TOP != (j.low + j.range) / TOP && j.range >= BOTTOM
    ensures Code(i, s) == ([], j)
  {
    hide Normalise, Narrow, Ready, ValidSlice;
    NormaliseStops(j);
  }

  /** And when one is. */
  lemma CodeOne(i: Interval, s: Slice, j: Interval, k: Interval)
    requires Ready(i) && ValidSlice(s) && Narrow(i, s) == j && Valid(j)
    requires j.low + j.range < TWO32 && j.low / TOP == (j.low + j.range) / TOP
    requires k.low == j.low * 256 % TWO32 && k.range == j.range * 256 % TWO32 && 1 <= k.range
    requires k.low + k.range < TWO32 && k.low / TOP != (k.low + k.range) / TOP && k.range >= BOTTOM
    ensures Code(i, s) == ([j.low / TOP], k)
  {
    hide Normalise, Narrow, Ready, ValidSlice;
    NormaliseOne(j, k);
  }

  lemma NormaliseOne(j: Interval, k: Interval)
    requires Valid(j) && j.low + j.range < TWO32 && j.low / TOP == (j.low + j.range) / TOP
    requires k.low == j.low * 256 % TWO32 && k.range == j.range * 256 % TWO32 && 1 <= k.range
    requires k.low + k.range < TWO32 && k.low / TOP != (k.low + k.range) / TOP && k.range >= BOTTOM
    ensures Normalise(j) == ([j.low / TOP], k)
  {
    hide Steps;
    assert Squeeze(j) == j && Shift(j) == k;
    assert Settled(k);
    NormaliseStops(k);
    assert [j.low / TOP] + [] == [j.low / TOP];
  }

  lemma NormaliseStops(k: Interval)
    requires Valid(k) && Settled(k)
    ensures Normalise(k) == ([], k)
  {
  }

  // ----- the contexts

  /** A context that has counted nothing but this byte. */
  function Only(count: nat, escapes: nat, total: nat): Stats {
    Stats(NoCounts()[A := count], escapes, total)
  }

  lemma NothingBelow(count: nat, m: Minimum)
    ensures Below(NoCounts()[A := count], A, m) == 97 * m
  {
    SumZero(NoCounts()[A := count], 0, A);
  }

  lemma FreshOnly(m: Minimum)
    ensures Fresh(m) == Only(0, m, 257 * m)
  {
    assert NoCounts()[A := 0] == NoCounts();
  }

  lemma BumpOnly(count: nat, escapes: nat, total: nat, m: Minimum)
    requires count <= 100 && total <= 1000
    ensures Bump(Only(count, escapes, total), A, m) ==
            if m == 1 then Only(count + 3, escapes, total + 3)
            else if count == 0 then Only(2, escapes + 5, total + 7)
            else Only(count + 2, escapes, total + 2)
  {
    var c := NoCounts()[A := count];
    assert c[A := count + 3] == NoCounts()[A := count + 3] && c[A := count + 2] == NoCounts()[A := count + 2];
  }

  /** The byte is coded in a context that knows it. */
  lemma CodedKnown(md: Model, p: Path, i: Interval, count: nat, escapes: nat, total: nat)
    requires AllBalanced(md) && Ready(i) && Look(md, p) == Only(count, escapes, total)
    requires count + MinimumOf(p) > 0
    ensures ValidSlice(Slice(escapes + 97 * MinimumOf(p), count + MinimumOf(p), total))
    ensures var (bytes, k) := Code(i, Slice(escapes + 97 * MinimumOf(p), count + MinimumOf(p), total));
            EncodeValue(md, p, A, i) == Encoded(bytes, Learn(md, p, A), k)
  {
    hide Look, Learn, EncodeValue, Code, Balanced, Below, NoCounts;
    var m := MinimumOf(p);
    EncodeStep(md, p, A, i);
    ValueSliceValid(Only(count, escapes, total), A, m);
    NothingBelow(count, m);
    assert Only(count, escapes, total).counts[A] == count;
  }

  /** A context that has counted nothing writes nothing. */
  lemma PassedOver(md: Model, p: Path, i: Interval)
    requires AllBalanced(md) && Ready(i) && p != [] && Look(md, p) == Fresh(0)
    ensures AllBalanced(Learn(md, p, A))
    ensures var e := EncodeValue(Learn(md, p, A), Shorter(p), A, i);
            EncodeValue(md, p, A, i) == e
  {
    hide Look, Learn, EncodeValue, CodeIn, Fresh, AllBalanced;
    EncodeStep(md, p, A, i);
    NothingWritten(i);
    var e := EncodeValue(Learn(md, p, A), Shorter(p), A, i);
    assert [] + e.bytes == e.bytes;
  }

  lemma NothingWritten(i: Interval)
    requires Ready(i)
    ensures Balanced(Fresh(0), 0) && Fresh(0).counts[A] == 0 && CodeIn(Fresh(0), A, 0, i) == ([], i)
  {
    hide Balanced;
    FreshBalanced(0);
  }

  // ----- the four bytes

  const AFTER1 := Interval(0x619E_619E, 0xFF_00FF)
  const AFTER2 := Interval(0x61FE_7F46, 0x3_EC50)
  const AFTER3 := Interval(0x014C_A300, 0x11E_F200)
  const AFTER4 := Interval(0x1999_0000, 0x51FC_0000)

  lemma Registers()
    ensures Ready(AFTER1) && Ready(AFTER2) && Ready(AFTER3) && Ready(AFTER4)
    ensures Code(FULL, Slice(98, 1, 257)) == ([], AFTER1)
    ensures Code(AFTER1, Slice(98, 4, 260)) == ([], AFTER2)
    ensures Code(AFTER2, Slice(5, 2, 7)) == ([0x62], AFTER3)
    ensures Code(AFTER3, Slice(5, 2, 7)) == ([0x02], AFTER4)
  {
    hide Code, Narrow;
    var j3, j4 := Interval(0x6201_4CA3, 0x1_1EF2), Interval(0x0219_9900, 0x51_FC00);
    NarrowIs(FULL, Slice(98, 1, 257), AFTER1);
    CodeNone(FULL, Slice(98, 1, 257), AFTER1);
    NarrowIs(AFTER1, Slice(98, 4, 260), AFTER2);
    CodeNone(AFTER1, Slice(98, 4, 260), AFTER2);
    NarrowIs(AFTER2, Slice(5, 2, 7), j3);
    CodeOne(AFTER2, Slice(5, 2, 7), j3, AFTER3);
    NarrowIs(AFTER3, Slice(5, 2, 7), j4);
    CodeOne(AFTER3, Slice(5, 2, 7), j4, AFTER4);
  }

  lemma Flushed()
    ensures Flush(AFTER4.low) == [0x19, 0x99]
  {
    assert Flush(0) == [];
    assert Flush(0x9900_0000) == [0x99] + Flush(0);
    assert Flush(0x1999_0000) == [0x19] + Flush(0x9900_0000);
  }

  /** What is known of the contexts on the way, by the length of the context. */
  ghost predicate Stage(md: Model, hist: Path, root: nat, one: nat, two: nat) {
    && Healthy(md) && AllBalanced(md) && md.hist == hist && md.used <= 1 + root + one + two
    && Look(md, []) == Only(root, 1, 257 + root)
    && Look(md, [A]) == (if one == 0 then Fresh(0) else Only(one, 5, 5 + one))
    && Look(md, [A, A]) == (if two == 0 then Fresh(0) else Only(two, 5, 5 + two))
  }

  lemma Learned(md: Model, p: Path, count: nat, escapes: nat, total: nat)
    requires AllBalanced(md) && Look(md, p) == Only(count, escapes, total) && count <= 100 && total <= 1000
    ensures AllBalanced(Learn(md, p, A))
    ensures Look(Learn(md, p, A), p) == if p == [] then Only(count + 3, escapes, total + 3)
                                        else if count == 0 then Only(2, escapes + 5, total + 7)
                                        else Only(count + 2, escapes, total + 2)
    ensures forall q: Path :: q != p ==> Look(Learn(md, p, A), q) == Look(md, q)
    ensures Learn(md, p, A).hist == md.hist && Learn(md, p, A).used <= md.used + 1
  {
    hide Bump;
    LearnKeeps(md, p, A);
    BumpOnly(count, escapes, total, MinimumOf(p));
    LearnUsed(md, p, A);
  }

  lemma Onward(md: Model, hist: Path)
    requires AllBalanced(md) && md.hist == hist && |hist| <= 2 && md.used <= 100
    ensures Healthy(Advance(md, A)) && AllBalanced(Advance(md, A)) && Advance(md, A).used == md.used
    ensures Advance(md, A).hist == if |hist| == 2 then hist[1..] + [A] else hist + [A]
    ensures forall q :: Look(Advance(md, A), q) == Look(md, q)
  {
    AdvanceHealthy(md, A);
    assert |hist| == 2 ==> (hist + [A])[1..] == hist[1..] + [A];
  }

  lemma First()
    ensures Healthy(INITIAL) && AllBalanced(INITIAL)
    ensures var e := EncodeValue(INITIAL, [], A, FULL);
            e.bytes == [] && e.i == AFTER1 && Stage(Advance(e.md, A), [A], 3, 0, 0)
  {
    hide Bump, Learn, EncodeValue, Code, Advance, Fresh;
    InitialHealthy();
    Registers();
    FreshOnly(1);
    StartLooks();
    CodedKnown(INITIAL, [], FULL, 0, 1, 257);
    Learned(INITIAL, [], 0, 1, 257);
    Onward(Learn(INITIAL, [], A), []);
    assert [] + [A] == [A];
  }

  lemma StartLooks()
    ensures forall q: Path :: Look(INITIAL, q) == Fresh(MinimumOf(q))
  {
  }

  lemma Second(md: Model)
    requires Stage(md, [A], 3, 0, 0)
    ensures var e := EncodeValue(md, [A], A, AFTER1);
            e.bytes == [] && e.i == AFTER2 && Stage(Advance(e.md, A), [A, A], 6, 2, 0)
  {
    hide Bump, Learn, EncodeValue, Code, Advance, Look, Fresh;
    Registers();
    FreshOnly(0);
    PassedOver(md, [A], AFTER1);
    Learned(md, [A], 0, 0, 0);
    var l := Learn(md, [A], A);
    assert Shorter([A]) == [];
    CodedKnown(l, [], AFTER1, 3, 1, 260);
    Learned(l, [], 3, 1, 260);
    Onward(Learn(l, [], A), [A]);
    assert [A] + [A] == [A, A];
  }

  lemma Third(md: Model)
    requires Stage(md, [A, A], 6, 2, 0)
    ensures var e := EncodeValue(md, [A, A], A, AFTER2);
            e.bytes == [0x62] && e.i == AFTER3 && Stage(Advance(e.md, A), [A, A], 6, 4, 2)
  {
    hide Bump, Learn, EncodeValue, Code, Advance, Look, Fresh;
    Registers();
    FreshOnly(0);
    PassedOver(md, [A, A], AFTER2);
    Learned(md, [A, A], 0, 0, 0);
    var l := Learn(md, [A, A], A);
    assert Shorter([A, A]) == [A];
    CodedKnown(l, [A], AFTER2, 2, 5, 7);
    Learned(l, [A], 2, 5, 7);
    Onward(Learn(l, [A], A), [A, A]);
    assert [A, A][1..] + [A] == [A, A];
  }

  lemma Fourth(md: Model)
    requires Stage(md, [A, A], 6, 4, 2)
    ensures var e := EncodeValue(md, [A, A], A, AFTER3);
            e.bytes == [0x02] && e.i == AFTER4 && Healthy(Advance(e.md, A))
  {
    hide Bump, Learn, EncodeValue, Code, Advance, Look, Fresh;
    Registers();
    CodedKnown(md, [A, A], AFTER3, 2, 5, 7);
    Learned(md, [A, A], 2, 5, 7);
    Onward(Learn(md, [A, A], A), [A, A]);
  }

  lemma EncodeNext(md: Model, data: seq<byte>, i: Interval)
    requires Healthy(md) && Ready(i) && data != []
    ensures var e := EncodeValue(md, md.hist, data[0], i);
            && Healthy(Advance(e.md, data[0]))
            && Encode(md, data, i) == e.bytes + Encode(Advance(e.md, data[0]), data[1..], e.i)
  {
    hide EncodeValue, Advance;
    AdvanceHealthy(EncodeValue(md, md.hist, data[0], i).md, data[0]);
  }

  /** The stream of "aaaa" is 62 02 19 99. */
  lemma FourBytes()
    ensures Stream([97, 97, 97, 97]) == [0x62, 0x02, 0x19, 0x99]
  {
    hide Encode, EncodeValue, Advance, Healthy, Flush;
    Registers();
    First();
    var a := Advance(EncodeValue(INITIAL, [], A, FULL).md, A);
    Second(a);
    var b := Advance(EncodeValue(a, [A], A, AFTER1).md, A);
    Third(b);
    var c := Advance(EncodeValue(b, [A, A], A, AFTER2).md, A);
    Fourth(c);
    var d := Advance(EncodeValue(c, [A, A], A, AFTER3).md, A);
    var four, three, two, one: seq<byte> := [A, A, A, A], [A, A, A], [A, A], [A];
    assert four[1..] == three && three[1..] == two && two[1..] == one && one[1..] == [];
    EncodeNext(INITIAL, four, FULL);
    EncodeNext(a, three, AFTER1);
    EncodeNext(b, two, AFTER2);
    EncodeNext(c, one, AFTER3);
    NoneLeft(d, AFTER4);
    Flushed();
  }

  lemma NoneLeft(md: Model, i: Interval)
    requires Healthy(md) && Ready(i)
    ensures Encode(md, [], i) == Flush(i.low)
  {
  }
}
