/**
 What the range coder computes, in terms of context statistics: an order-2 model
 learned byte by byte, the stream a compressor writes and the bytes a
 decompressor reads back. Contexts are named by the bytes leading to them, so the
 numbering of pool slots does not occur here.
 */
module RangeCoderSpec {
  import opened Words
  import opened Interval
  import opened Contexts

  const POOL_SIZE := 4096
  const SUBCONTEXT_ORDER := 2

  type Path = seq<byte>

  /** The learned statistics, how many pool slots are taken, and the context in
      which the next byte is predicted. */
  datatype Model = Model(table: map<Path, Stats>, used: nat, hist: Path)

  const INITIAL := Model(map[], 1, [])

  function MinimumOf(p: Path): Minimum {
    if p == [] then 1 else 0
  }

  function Look(md: Model, p: Path): Stats {
    if p in md.table then md.table[p] else Fresh(MinimumOf(p))
  }

  ghost predicate BalancedAt(md: Model, p: Path) {
    Balanced(Look(md, p), MinimumOf(p))
  }

  ghost predicate AllBalanced(md: Model) {
    forall p: Path :: BalancedAt(md, p)
  }

  /** Between bytes: every context is balanced and one more byte fits the pool. */
  ghost predicate Healthy(md: Model) {
    AllBalanced(md) && md.used < POOL_SIZE - SUBCONTEXT_ORDER && |md.hist| <= SUBCONTEXT_ORDER
  }

  /** Counting `v` once more in the context `p`; a new value takes a pool slot. */
  function Learn(md: Model, p: Path, v: byte): Model {
    var st := Look(md, p);
    md.(table := md.table[p := Bump(st, v, MinimumOf(p))],
        used := md.used + if st.counts[v] == 0 then 1 else 0)
  }

  lemma LearnKeeps(md: Model, p: Path, v: byte)
    requires AllBalanced(md)
    ensures AllBalanced(Learn(md, p, v))
  {
    forall q: Path ensures BalancedAt(Learn(md, p, v), q) {
      LearnBalancedAt(md, p, v, q);
    }
  }

  lemma LearnBalancedAt(md: Model, p: Path, v: byte, q: Path)
    requires BalancedAt(md, q)
    ensures BalancedAt(Learn(md, p, v), q)
  {
    hide Balanced, Bump;
    if q == p {
      BumpBalanced(Look(md, p), v, MinimumOf(p));
    } else {
      LearnElsewhere(md, p, v, q);
    }
  }

  /** Other contexts are not touched. */
  lemma LearnElsewhere(md: Model, p: Path, v: byte, q: Path)
    requires p != q
    ensures Look(Learn(md, p, v), q) == Look(md, q)
  {
  }

  function Shorter(p: Path): Path
    requires p != []
  {
    p[1..]
  }

  predicate Ends(p: Path, stop: Path) {
    |stop| <= |p| && stop == p[|p| - |stop|..]
  }

  lemma EndsShorter(p: Path, stop: Path)
    requires Ends(p, stop)
    ensures p == stop || (p != [] && Ends(Shorter(p), stop) && |Shorter(p)| == |p| - 1 && |stop| < |p|)
  {
  }

  /** The context for the next byte; a full pool starts the model afresh. */
  function Advance(md: Model, v: byte): Model {
    if md.used >= POOL_SIZE - SUBCONTEXT_ORDER then INITIAL
    else md.(hist := if |md.hist| >= SUBCONTEXT_ORDER then Shorter(md.hist + [v]) else md.hist + [v])
  }

  lemma InitialHealthy()
    ensures Healthy(INITIAL)
  {
    hide Balanced, Fresh;
    forall p: Path ensures BalancedAt(INITIAL, p) {
      FreshBalanced(MinimumOf(p));
      assert Look(INITIAL, p) == Fresh(MinimumOf(p));
    }
  }

  // ----- compression

  function Code(i: Interval, s: Slice): (r: (seq<byte>, Interval))
    requires Ready(i) && ValidSlice(s)
    ensures Ready(r.1)
  {
    Normalise(Narrow(i, s))
  }

  function CodeEscape(st: Stats, i: Interval): (r: (seq<byte>, Interval))
    requires Ready(i) && Balanced(st, 0)
    ensures Ready(r.1)
  {
    if EscapeCoded(st) then Code(i, EscapeSlice(st)) else ([], i)
  }

  /** What is written for `v` in one context: its own part, or the escape if unknown. */
  function CodeIn(st: Stats, v: byte, m: Minimum, i: Interval): (r: (seq<byte>, Interval))
    requires Ready(i) && Balanced(st, m)
    ensures Ready(r.1)
  {
    if st.counts[v] + m > 0 then
      ValueSliceValid(st, v, m);
      Code(i, ValueSlice(st, v, m))
    else
      CodeEscape(st, i)
  }

  datatype Encoded = Encoded(bytes: seq<byte>, md: Model, i: Interval)

  /** Codes `v` from the context `p` downwards: escape until a context knows it. */
  function EncodeValue(md: Model, p: Path, v: byte, i: Interval): (r: Encoded)
    requires AllBalanced(md) && Ready(i)
    ensures AllBalanced(r.md) && Ready(r.i) && r.md.hist == md.hist
    ensures md.used <= r.md.used <= md.used + |p| + 1
    decreases |p|
  {
    var st, m, learned := Look(md, p), MinimumOf(p), Learn(md, p, v);
    LearnKeeps(md, p, v);
    assert BalancedAt(md, p);
    var (bytes, k) := CodeIn(st, v, m, i);
    if st.counts[v] + m > 0 then Encoded(bytes, learned, k)
    else
      var e := EncodeValue(learned, Shorter(p), v, k);
      Encoded(bytes + e.bytes, e.md, e.i)
  }

  /** One context's turn in coding a value. */
  lemma EncodeStep(md: Model, p: Path, v: byte, i: Interval)
    requires AllBalanced(md) && Ready(i)
    ensures Balanced(Look(md, p), MinimumOf(p)) && AllBalanced(Learn(md, p, v))
    ensures var st, m := Look(md, p), MinimumOf(p);
            var (bytes, k) := CodeIn(st, v, m, i);
            EncodeValue(md, p, v, i) ==
              if st.counts[v] + m > 0 then Encoded(bytes, Learn(md, p, v), k)
              else var e := EncodeValue(Learn(md, p, v), Shorter(p), v, k); Encoded(bytes + e.bytes, e.md, e.i)
  {
    assert BalancedAt(md, p);
    LearnKeeps(md, p, v);
  }

  lemma LearnUsed(md: Model, p: Path, v: byte)
    ensures Learn(md, p, v).hist == md.hist && md.used <= Learn(md, p, v).used <= md.used + 1
  {
  }

  lemma AdvanceHealthy(md: Model, v: byte)
    requires AllBalanced(md) && |md.hist| <= SUBCONTEXT_ORDER
    ensures Healthy(Advance(md, v))
  {
    hide Balanced, Fresh;
    InitialHealthy();
    if md.used < POOL_SIZE - SUBCONTEXT_ORDER {
      forall p: Path ensures BalancedAt(Advance(md, v), p) {
        assert BalancedAt(md, p);
      }
    }
  }

  /** How many byte shifts empty the register. */
  function ZeroTail(low: u32): nat {
    if low == 0 then 0
    else if U32(low * 0x100) == 0 then 1
    else if U32(low * 0x1_0000) == 0 then 2
    else if U32(low * 0x100_0000) == 0 then 3
    else 4
  }

  lemma ShiftedLow(low: u32)
    ensures U32(low * 256) == (low % TOP) * 256
  {
    var a, b := low / TOP, low % TOP;
    assert low * 256 == a * TWO32 + b * 256 && 0 <= b * 256 < TWO32;
  }

  /** Shifting the wrapped register is shifting the register and wrapping. */
  lemma ShiftTwice(low: u32, k: nat)
    ensures U32(U32(low * 256) * k) == U32(low * (256 * k))
  {
    var q := low * 256 / TWO32;
    assert low * 256 == q * TWO32 + U32(low * 256);
    assert low * (256 * k) == (low * 256) * k == (q * k) * TWO32 + U32(low * 256) * k;
    ModUnique(q * k, U32(low * 256) * k);
  }

  lemma ModUnique(q: nat, a: nat)
    ensures U32(q * TWO32 + a) == U32(a)
  {
  }

  lemma ZeroTailShrinks(low: u32)
    requires low != 0
    ensures ZeroTail(U32(low * 256)) < ZeroTail(low)
  {
    ShiftTwice(low, 0x100);
    ShiftTwice(low, 0x1_0000);
    ShiftTwice(low, 0x100_0000);
    ModUnique(low, 0);
  }

  /** The final bytes: `low` up to its last non-zero byte. */
  function Flush(low: u32): (r: seq<byte>)
    decreases ZeroTail(low)
  {
    if low == 0 then []
    else
      ZeroTailShrinks(low);
      [low / TOP] + Flush(U32(low * 256))
  }

  function Encode(md: Model, data: seq<byte>, i: Interval): seq<byte>
    requires Healthy(md) && Ready(i)
    decreases |data|
  {
    if data == [] then Flush(i.low)
    else
      var e := EncodeValue(md, md.hist, data[0], i);
      AdvanceHealthy(e.md, data[0]);
      e.bytes + Encode(Advance(e.md, data[0]), data[1..], e.i)
  }

  /** The whole stream for some data. */
  function Stream(data: seq<byte>): seq<byte> {
    InitialHealthy();
    Encode(INITIAL, data, FULL)
  }

  // ----- decompression

  /** One decoded byte with the context that knew it, or why there is none:
      the end of the data, a code no value of a subcontext owns, or a code past the
      root's total. The last two happen only on streams no compressor wrote. */
  datatype Decoded =
    | Value(v: byte, stop: Path, i: Interval, rest: seq<byte>)
    | End
    | DeadEnd
    | Garbled

  function Take(i: Interval, s: Slice, stream: seq<byte>): (r: (Interval, seq<byte>))
    requires Ready(i) && ValidSlice(s)
    ensures Ready(r.0)
  {
    var (bytes, k) := Normalise(Narrow(i, s));
    (k, Drop(stream, |bytes|))
  }

  function TakeEscape(st: Stats, i: Interval, stream: seq<byte>): (r: (Interval, seq<byte>))
    requires Ready(i) && Balanced(st, 0) && st.escapes > 0
    ensures Ready(r.0)
  {
    Take(i, EscapeSlice(st), stream)
  }

  function DecodeValue(md: Model, p: Path, i: Interval, stream: seq<byte>): (r: Decoded)
    requires AllBalanced(md) && Ready(i)
    ensures r.Value? ==> Ready(r.i) && Ends(p, r.stop)
    decreases |p|
  {
    var st, m := Look(md, p), MinimumOf(p);
    assert BalancedAt(md, p);
    if p != [] && !EscapeCoded(st) then DecodeValue(md, Shorter(p), i, stream)
    else
      var code := Read(i, st.total, Window(stream));
      if code < st.escapes then
        if p == [] then End
        else
          var (k, rest) := TakeEscape(st, i, stream);
          DecodeValue(md, Shorter(p), k, rest)
      else if code >= st.total then
        if p == [] then Garbled else DeadEnd
      else
        var v := Locate(st.counts, code - st.escapes, m, 0);
        ValueSliceValid(st, v, m);
        var (k, rest) := Take(i, ValueSlice(st, v, m), stream);
        Value(v, p, k, rest)
  }

  /** One context's turn in decoding a value. */
  lemma DecodeStep(md: Model, p: Path, i: Interval, stream: seq<byte>)
    requires AllBalanced(md) && Ready(i)
    ensures var st, m := Look(md, p), MinimumOf(p);
            && Balanced(st, m) && st.total < BOTTOM
            && (p == [] || EscapeCoded(st) ==>
              && 1 <= st.total
              && var code := Read(i, st.total, Window(stream));
              && (code < st.escapes && p == [] ==> DecodeValue(md, p, i, stream) == End)
              && (code < st.escapes && p != [] ==>
                    var (k, rest) := TakeEscape(st, i, stream);
                    DecodeValue(md, p, i, stream) == DecodeValue(md, Shorter(p), k, rest))
              && (st.escapes <= code < st.total ==>
                    && Below(st.counts, 0, m) <= code - st.escapes < Below(st.counts, 256, m)
                    && var v := Locate(st.counts, code - st.escapes, m, 0);
                    && ValidSlice(ValueSlice(st, v, m))
                    && var (k, rest) := Take(i, ValueSlice(st, v, m), stream);
                    DecodeValue(md, p, i, stream) == Value(v, p, k, rest))
              && (code >= st.total ==> DecodeValue(md, p, i, stream) == if p == [] then Garbled else DeadEnd))
            && (p != [] && !EscapeCoded(st) ==> DecodeValue(md, p, i, stream) == DecodeValue(md, Shorter(p), i, stream))
  {
    hide Read, Window, Take, Look, Code, Normalise, Locate, Narrow, Drop;
    var st, m := Look(md, p), MinimumOf(p);
    assert BalancedAt(md, p);
    BelowEnds(st.counts);
    if p == [] || EscapeCoded(st) {
      var code := Read(i, st.total, Window(stream));
      if st.escapes <= code < st.total {
        ValueSliceValid(st, Locate(st.counts, code - st.escapes, m, 0), m);
      }
    }
  }

  /** Counts `v` in every context from `p` down to, and without, `stop`. */
  function Patch(md: Model, p: Path, stop: Path, v: byte): (r: Model)
    requires AllBalanced(md)
    requires Ends(p, stop)
    ensures AllBalanced(r) && r.hist == md.hist && md.used <= r.used <= md.used + |p| - |stop|
    decreases |p|
  {
    if |p| == |stop| then md
    else
      LearnKeeps(md, p, v);
      Patch(Learn(md, p, v), Shorter(p), stop, v)
  }

  /** The decoder first updates the context that knew the byte, then the escaped ones. */
  function LearnDecoded(md: Model, stop: Path, v: byte): (r: Model)
    requires AllBalanced(md) && Ends(md.hist, stop)
    ensures AllBalanced(r) && r.hist == md.hist && md.used <= r.used <= md.used + |md.hist| + 1
  {
    LearnKeeps(md, stop, v);
    Patch(Learn(md, stop, v), md.hist, stop, v)
  }

  datatype Outcome = Output(data: seq<byte>) | Rejected | Unmodelled

  function Prepend(v: byte, o: Outcome): Outcome {
    if o.Output? then Output([v] + o.data) else o
  }

  function Decode(md: Model, i: Interval, stream: seq<byte>, limit: nat): Outcome
    requires Healthy(md) && Ready(i)
    decreases limit
  {
    match DecodeValue(md, md.hist, i, stream)
    case End => Output([])
    case DeadEnd => Rejected
    case Garbled => Unmodelled
    case Value(v, stop, k, rest) =>
      if limit == 0 then Rejected
      else
        var learned := LearnDecoded(md, stop, v);
        AdvanceHealthy(learned, v);
        Prepend(v, Decode(Advance(learned, v), k, rest, limit - 1))
  }

  /** What a decompressor returns for a stream and room for `limit` bytes. */
  function Unstream(stream: seq<byte>, limit: nat): Outcome {
    InitialHealthy();
    Decode(INITIAL, FULL, stream, limit)
  }
}
