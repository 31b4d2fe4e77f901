/**
 The frequency statistics of one context of the order-2 model, without the tree
 that stores them: how often each byte value was seen, the escape weight and the
 stored total.
 */
module Contexts {
  import opened Words
  import opened Interval

  const CONTEXT_SYMBOL_MINIMUM := 1
  const SYMBOL_DELTA := 3
  const SUBCONTEXT_SYMBOL_DELTA := 2
  const SUBCONTEXT_ESCAPE_DELTA := 5

  /** The weight every value has in the context even if unseen: 1 in the root, 0 elsewhere. */
  type Minimum = m: int | 0 <= m <= 1

  function Delta(m: Minimum): nat {
    if m == 1 then SYMBOL_DELTA else SUBCONTEXT_SYMBOL_DELTA
  }

  type Counts = c: seq<nat> | |c| == 256 witness seq(256, i => 0)

  datatype Stats = Stats(counts: Counts, escapes: nat, total: nat)

  function NoCounts(): Counts {
    seq(256, i => 0)
  }

  /** A context no byte was coded in yet: below the root, and the root itself. */
  function Fresh(m: Minimum): Stats {
    Stats(NoCounts(), m, m + 256 * m)
  }

  function Sum(c: seq<nat>, lo: nat, hi: nat): nat
    requires lo <= hi <= |c|
  {
    if lo == hi then 0 else Sum(c, lo, hi - 1) + c[hi - 1]
  }

  lemma {:induction false} SumSplit(c: seq<nat>, lo: nat, mid: nat, hi: nat)
    requires lo <= mid <= hi <= |c|
    ensures Sum(c, lo, hi) == Sum(c, lo, mid) + Sum(c, mid, hi)
  {
    if mid < hi {
      SumSplit(c, lo, mid, hi - 1);
    }
  }

  lemma {:induction false} SumUpdate(c: seq<nat>, v: nat, x: nat, lo: nat, hi: nat)
    requires lo <= hi <= |c| && v < |c|
    ensures Sum(c[v := x], lo, hi) == Sum(c, lo, hi) + if lo <= v < hi then x - c[v] else 0
  {
    if lo < hi {
      SumUpdate(c, v, x, lo, hi - 1);
    }
  }

  lemma {:induction false} SumZero(c: seq<nat>, lo: nat, hi: nat)
    requires lo <= hi <= |c|
    ensures Sum(c, lo, hi) == 0 <==> forall k :: lo <= k < hi ==> c[k] == 0
  {
    if lo < hi {
      SumZero(c, lo, hi - 1);
    }
  }

  /** A part of a sum is at most the sum. */
  lemma SumPart(c: seq<nat>, lo: nat, hi: nat)
    requires lo <= hi <= |c|
    ensures Sum(c, lo, hi) <= Sum(c, 0, |c|)
  {
    SumSplit(c, 0, lo, |c|);
    SumSplit(c, lo, hi, |c|);
  }

  // ----- rescaling

  function HalfUp(n: nat): nat {
    n - n / 2
  }

  function Halved(c: Counts): (r: Counts) {
    seq(256, i requires 0 <= i < 256 => HalfUp(c[i]))
  }

  lemma {:induction false} SumHalved(c: Counts, lo: nat, hi: nat)
    requires lo <= hi <= 256
    ensures 2 * Sum(Halved(c), lo, hi) <= Sum(c, lo, hi) + (hi - lo)
    ensures Sum(Halved(c), lo, hi) <= Sum(c, lo, hi)
  {
    if lo < hi {
      SumHalved(c, lo, hi - 1);
    }
  }

  function Rescaled(st: Stats, m: Minimum): Stats {
    var c, e := Halved(st.counts), HalfUp(st.escapes);
    Stats(c, e, Sum(c, 0, 256) + e + 256 * m)
  }

  // ----- the update after a value was coded

  predicate MustRescale(count: nat, total: nat, m: Minimum) {
    count > 0xFF - 2 * Delta(m) + m || total > BOTTOM - 0x100
  }

  /** Counts the value `v` once more, adds escape weight if it was new to a
      subcontext, and halves everything when a count or the total gets large. */
  function Bump(st: Stats, v: byte, m: Minimum): Stats {
    var count := st.counts[v] + m;
    var extra := if count == 0 then SUBCONTEXT_ESCAPE_DELTA else 0;
    var s := Stats(st.counts[v := st.counts[v] + Delta(m)], st.escapes + extra, st.total + extra + Delta(m));
    if MustRescale(count, s.total, m) then Rescaled(s, m) else s
  }

  /** The stored total is the escape weight plus all counts (plus 256 in the root),
      and everything fits the 8-bit and 16-bit fields with room for one more update. */
  predicate Balanced(st: Stats, m: Minimum) {
    && st.total == st.escapes + Sum(st.counts, 0, 256) + 256 * m
    && st.total <= BOTTOM - 0x100
    && (forall v :: 0 <= v < 256 ==> st.counts[v] <= 0xFF - Delta(m))
    && (m == 1 ==> st.escapes == 1)
    && (st.escapes == 0 ==> forall v :: 0 <= v < 256 ==> st.counts[v] == 0)
  }

  lemma FreshBalanced(m: Minimum)
    ensures Balanced(Fresh(m), m)
  {
    SumZero(NoCounts(), 0, 256);
  }

  lemma BumpBalanced(st: Stats, v: byte, m: Minimum)
    requires Balanced(st, m)
    ensures Balanced(Bump(st, v, m), m)
  {
    var c := st.counts[v := st.counts[v] + Delta(m)];
    SumUpdate(st.counts, v, st.counts[v] + Delta(m), 0, 256);
    SumHalved(c, 0, 256);
  }

  /** Halving forgets no value. */
  lemma BumpKnows(st: Stats, v: byte, m: Minimum, w: byte)
    ensures Bump(st, v, m).counts[w] > 0 <==> w == v || st.counts[w] > 0
  {
  }

  // ----- the part of the total that codes one value

  /** The weight of all values below `v`. */
  function Below(c: Counts, v: nat, m: Minimum): nat
    requires v <= 256
  {
    Sum(c, 0, v) + v * m
  }

  lemma {:induction false} BelowMono(c: Counts, v: nat, w: nat, m: Minimum)
    requires v <= w <= 256
    ensures Below(c, v, m) <= Below(c, w, m)
    ensures v < w ==> Below(c, v, m) + c[v] + m <= Below(c, w, m)
  {
    SumSplit(c, 0, v, w);
    if v < w {
      SumSplit(c, v, v + 1, w);
      assert Sum(c, v, v + 1) == c[v];
    }
  }

  lemma BelowEnds(c: Counts)
    ensures Below(c, 0, 0) == 0 == Below(c, 0, 1) && Sum(c, 0, 0) == 0
    ensures Below(c, 256, 0) == Sum(c, 0, 256) && Below(c, 256, 1) == Sum(c, 0, 256) + 256
  {
  }

  /** The value whose part of `[0, Below(256))` contains `code`. */
  function Locate(c: Counts, code: nat, m: Minimum, from: nat): (v: byte)
    requires from < 256 && Below(c, from, m) <= code < Below(c, 256, m)
    ensures from <= v && Below(c, v, m) <= code < Below(c, v, m) + c[v] + m
    decreases 256 - from
  {
    if code < Below(c, from, m) + c[from] + m then from
    else
      assert Below(c, from + 1, m) == Below(c, from, m) + c[from] + m;
      Locate(c, code, m, from + 1)
  }

  /** The parts of different values are disjoint, so a code belongs to one value. */
  lemma LocateUnique(c: Counts, code: nat, m: Minimum, v: byte)
    requires Below(c, v, m) <= code < Below(c, v, m) + c[v] + m
    ensures code < Below(c, 256, m)
    ensures Locate(c, code, m, 0) == v
  {
    BelowMono(c, v, 256, m);
    var w := Locate(c, code, m, 0);
    if w < v {
      BelowMono(c, w, v, m);
    } else if v < w {
      BelowMono(c, v, w, m);
    }
  }

  /** In a root context that has seen nothing the code is the value. */
  lemma FirstRootValue(c: Counts, code: nat, v: byte)
    requires Sum(c, 0, 256) == 0 && Below(c, v, 1) <= code < Below(c, v, 1) + c[v] + 1
    ensures v == code == Below(c, v, 1) && c[v] == 0
  {
    SumZero(c, 0, 256);
    SumZero(c, 0, v);
  }

  /** The slice that codes `v` itself; the escape weight comes first. */
  function ValueSlice(st: Stats, v: byte, m: Minimum): Slice {
    Slice(st.escapes + Below(st.counts, v, m), st.counts[v] + m, st.total)
  }

  function EscapeSlice(st: Stats): Slice {
    Slice(0, st.escapes, st.total)
  }

  lemma ValueSliceValid(st: Stats, v: byte, m: Minimum)
    requires Balanced(st, m) && st.counts[v] + m > 0
    ensures ValidSlice(ValueSlice(st, v, m))
  {
    BelowMono(st.counts, v, 256, m);
  }

  /** Whether an escape from the context is written to the stream at all. */
  predicate EscapeCoded(st: Stats) {
    0 < st.escapes < st.total
  }

  /** A subcontext that knows a value has both escape weight and value weight. */
  lemma KnownMeansEscapeCoded(st: Stats, v: byte)
    requires Balanced(st, 0) && st.counts[v] > 0
    ensures EscapeCoded(st)
  {
    SumZero(st.counts, 0, 256);
  }

  lemma EscapeSliceValid(st: Stats)
    requires EscapeCoded(st) && st.total < BOTTOM
    ensures ValidSlice(EscapeSlice(st))
  {
  }
}
