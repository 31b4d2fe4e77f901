/** Decompressing a compressed stream gives the data back. */
module RoundTrip {
  import opened Words
  import opened Interval
  import opened Contexts
  import opened RangeCoderSpec

  // ----- one coding step

  lemma CodeHolds(i: Interval, s: Slice, rest: seq<byte>)
    requires Ready(i) && ValidSlice(s)
    requires Holds(Code(i, s).1, Window(rest))
    ensures var stream := Code(i, s).0 + rest;
            && Holds(i, Window(stream))
            && s.under <= Read(i, s.total, Window(stream)) < s.under + s.count
            && Take(i, s, stream) == (Code(i, s).1, rest)
  {
    NormaliseHolds(Narrow(i, s), rest);
    ReadFindsSlice(i, s, Window(Code(i, s).0 + rest));
  }

  // ----- one byte

  /** The context at which the encoder stops escaping. */
  function Stop(md: Model, p: Path, v: byte): (r: Path)
    ensures Ends(p, r)
    decreases |p|
  {
    if p == [] || Look(md, p).counts[v] > 0 then p else Stop(md, Shorter(p), v)
  }

  ghost predicate AgreeBelow(a: Model, b: Model, n: nat) {
    forall q: Path :: |q| <= n ==> Look(a, q) == Look(b, q)
  }

  lemma {:induction false} DecodeValueFrame(a: Model, b: Model, p: Path, i: Interval, stream: seq<byte>)
    requires AllBalanced(a) && AllBalanced(b) && Ready(i) && AgreeBelow(a, b, |p|)
    ensures DecodeValue(a, p, i, stream) == DecodeValue(b, p, i, stream)
    decreases |p|
  {
    hide Balanced, Read, Window, Take, TakeEscape, Locate, Look, Ready, Drop, DecodeValue, Below, ValueSlice,
        AllBalanced;
    DecodeStep(a, p, i, stream);
    DecodeStep(b, p, i, stream);
    var st := Look(a, p);
    assert st == Look(b, p);
    if p != [] {
      if !EscapeCoded(st) {
        DecodeValueFrame(a, b, Shorter(p), i, stream);
      } else if Read(i, st.total, Window(stream)) < st.escapes {
        var (k, rest) := TakeEscape(st, i, stream);
        DecodeValueFrame(a, b, Shorter(p), k, rest);
      }
    }
  }

  lemma {:induction false} StopFrame(a: Model, b: Model, p: Path, v: byte)
    requires AgreeBelow(a, b, |p|)
    ensures Stop(a, p, v) == Stop(b, p, v)
    decreases |p|
  {
    if p != [] && Look(a, p).counts[v] == 0 {
      StopFrame(a, b, Shorter(p), v);
    }
  }

  /** Learning at a context does not show at shorter ones. */
  lemma LearnAgreesBelow(md: Model, p: Path, v: byte)
    requires p != []
    ensures AgreeBelow(Learn(md, p, v), md, |Shorter(p)|)
  {
    forall q: Path | |q| <= |Shorter(p)| ensures Look(Learn(md, p, v), q) == Look(md, q) {
      LearnElsewhere(md, p, v, q);
    }
  }

  lemma KnownRoundTrip(md: Model, p: Path, v: byte, i: Interval, rest: seq<byte>)
    requires AllBalanced(md) && Ready(i)
    requires Look(md, p).counts[v] + MinimumOf(p) > 0
    requires Holds(EncodeValue(md, p, v, i).i, Window(rest))
    ensures var e := EncodeValue(md, p, v, i);
            && Holds(i, Window(e.bytes + rest))
            && DecodeValue(md, p, i, e.bytes + rest) == Value(v, p, e.i, rest)
  {
    hide Look, Learn, EncodeValue, DecodeValue, Read, Window, Take, Code, Locate, Balanced, AllBalanced, Holds, Below;
    var st, m := Look(md, p), MinimumOf(p);
    EncodeStep(md, p, v, i);
    ValueSliceValid(st, v, m);
    CodeHolds(i, ValueSlice(st, v, m), rest);
    var stream := Code(i, ValueSlice(st, v, m)).0 + rest;
    DecodeStep(md, p, i, stream);
    LocateUnique(st.counts, Read(i, st.total, Window(stream)) - st.escapes, m, v);
    if p != [] {
      KnownMeansEscapeCoded(st, v);
    }
  }

  /** An escape, written or left out, takes the decoder to the shorter context. */
  lemma EscapeRoundTrip(md: Model, p: Path, i: Interval, rest: seq<byte>)
    requires AllBalanced(md) && Ready(i) && p != [] && BalancedAt(md, p)
    requires Holds(CodeEscape(Look(md, p), i).1, Window(rest))
    ensures var (bytes, k) := CodeEscape(Look(md, p), i);
            && Holds(i, Window(bytes + rest))
            && DecodeValue(md, p, i, bytes + rest) == DecodeValue(md, Shorter(p), k, rest)
  {
    var st := Look(md, p);
    if EscapeCoded(st) {
      CodeHolds(i, EscapeSlice(st), rest);
    } else {
      assert [] + rest == rest;
    }
  }

  /** Both directions for an unknown value: first the escape, then the shorter context. */
  lemma EncodeUnknown(md: Model, p: Path, v: byte, i: Interval) returns (k: (seq<byte>, Interval), d: Encoded)
    requires AllBalanced(md) && Ready(i) && p != [] && Look(md, p).counts[v] == 0
    ensures AllBalanced(Learn(md, p, v)) && BalancedAt(md, p)
    ensures k == CodeEscape(Look(md, p), i)
    ensures d == EncodeValue(Learn(md, p, v), Shorter(p), v, k.1)
    ensures EncodeValue(md, p, v, i) == Encoded(k.0 + d.bytes, d.md, d.i)
  {
    LearnKeeps(md, p, v);
    assert BalancedAt(md, p);
    k := CodeEscape(Look(md, p), i);
    d := EncodeValue(Learn(md, p, v), Shorter(p), v, k.1);
  }

  /** Decoding what was encoded for `v`, whatever follows it, finds `v` at the context
      where the encoder stopped, with the same interval and the rest of the stream. */
  lemma {:induction false} ValueRoundTrip(md: Model, p: Path, v: byte, i: Interval, rest: seq<byte>)
    requires AllBalanced(md) && Ready(i)
    requires Holds(EncodeValue(md, p, v, i).i, Window(rest))
    ensures var e := EncodeValue(md, p, v, i);
            && Holds(i, Window(e.bytes + rest))
            && DecodeValue(md, p, i, e.bytes + rest) == Value(v, Stop(md, p, v), e.i, rest)
    decreases |p|
  {
    if p == [] || Look(md, p).counts[v] > 0 {
      KnownRoundTrip(md, p, v, i, rest);
    } else {
      var k, d := EncodeUnknown(md, p, v, i);
      ValueRoundTrip(Learn(md, p, v), Shorter(p), v, k.1, rest);
      ShorterRoundTrip(md, p, v, i, k, d, rest);
    }
  }

  lemma ShorterRoundTrip(md: Model, p: Path, v: byte, i: Interval, k: (seq<byte>, Interval), d: Encoded,
      rest: seq<byte>)
    requires AllBalanced(md) && Ready(i) && p != [] && Look(md, p).counts[v] == 0
    requires AllBalanced(Learn(md, p, v)) && BalancedAt(md, p)
    requires k == CodeEscape(Look(md, p), i)
    requires Holds(k.1, Window(d.bytes + rest))
    requires DecodeValue(Learn(md, p, v), Shorter(p), k.1, d.bytes + rest)
             == Value(v, Stop(Learn(md, p, v), Shorter(p), v), d.i, rest)
    ensures Holds(i, Window((k.0 + d.bytes) + rest))
    ensures DecodeValue(md, p, i, (k.0 + d.bytes) + rest) == Value(v, Stop(md, p, v), d.i, rest)
  {
    hide Look, Learn, Balanced, Window, CodeEscape, DecodeValue, Ready, AllBalanced, Holds, BalancedAt, AgreeBelow;
    LearnAgreesBelow(md, p, v);
    DecodeValueFrame(Learn(md, p, v), md, Shorter(p), k.1, d.bytes + rest);
    StopFrame(Learn(md, p, v), md, Shorter(p), v);
    EscapeRoundTrip(md, p, i, d.bytes + rest);
    assert (k.0 + d.bytes) + rest == k.0 + (d.bytes + rest);
  }

  // ----- the model after one byte

  /** Both sides learn the same model, although the decoder updates the contexts in
      another order. */
  lemma {:induction false} LearnAgree(md: Model, p: Path, v: byte, i: Interval)
    requires AllBalanced(md) && Ready(i)
    ensures var stop := Stop(md, p, v);
            AllBalanced(Learn(md, stop, v)) && Patch(Learn(md, stop, v), p, stop, v) == EncodeValue(md, p, v, i).md
    decreases |p|
  {
    var st, md' := Look(md, p), Learn(md, p, v);
    var stop := Stop(md, p, v);
    LearnKeeps(md, p, v);
    LearnKeeps(md, stop, v);
    assert BalancedAt(md, p);
    if st.counts[v] + MinimumOf(p) == 0 {
      var k := CodeEscape(st, i).1;
      LearnAgree(md', Shorter(p), v, k);
      LearnAgreesBelow(md, p, v);
      StopFrame(md', md, Shorter(p), v);
      LearnCommutes(md, p, stop, v);
    }
  }

  lemma LearnCommutes(md: Model, p: Path, q: Path, v: byte)
    requires p != q && AllBalanced(md)
    ensures Learn(Learn(md, p, v), q, v) == Learn(Learn(md, q, v), p, v)
  {
    LearnKeeps(md, p, v);
    LearnKeeps(md, q, v);
    var a, b := Learn(Learn(md, p, v), q, v), Learn(Learn(md, q, v), p, v);
    assert a.table == b.table;
  }

  // ----- the end of the data

  lemma {:induction false} FlushWindow(low: u32)
    ensures |Flush(low)| <= 4 && Window(Flush(low)) == low
    ensures |Flush(low)| <= ZeroTail(low)
    decreases ZeroTail(low)
  {
    if low != 0 {
      ZeroTailShrinks(low);
      FlushWindow(U32(low * 256));
      WindowCons(low / TOP, Flush(U32(low * 256)));
      ShiftedLow(low);
    }
  }

  /** The stream that is left is exactly `low`, as after the flush. */
  ghost predicate AtLow(i: Interval, stream: seq<byte>) {
    |stream| <= 4 && Window(stream) == i.low
  }

  lemma {:induction false} NormaliseAtLow(i: Interval, stream: seq<byte>)
    requires Valid(i) && AtLow(i, stream)
    ensures AtLow(Normalise(i).1, Drop(stream, |Normalise(i).0|))
    decreases Steps(i)
  {
    if Settled(i) {
    } else {
      var j := Squeeze(i);
      ShiftSteps(i);
      SqueezeKeeps(i);
      WindowShift(stream);
      NormaliseAtLow(Shift(j), Drop(stream, 1));
      var n := |Normalise(Shift(j)).0|;
      assert Drop(Drop(stream, 1), n) == Drop(stream, 1 + n);
    }
  }

  /** Once only `low` is left, the decoder escapes through every context to the end. */
  lemma {:induction false} LowDecodesToEnd(md: Model, p: Path, i: Interval, stream: seq<byte>)
    requires AllBalanced(md) && Ready(i) && AtLow(i, stream)
    ensures DecodeValue(md, p, i, stream) == End
    decreases |p|
  {
    var st := Look(md, p);
    assert BalancedAt(md, p);
    if p != [] && !EscapeCoded(st) {
      LowDecodesToEnd(md, Shorter(p), i, stream);
    } else {
      var s := EscapeSlice(st);
      ReadFindsSlice(i, s, i.low);
      if p != [] {
        NormaliseAtLow(Narrow(i, s), stream);
        var (k, rest) := TakeEscape(st, i, stream);
        LowDecodesToEnd(md, Shorter(p), k, rest);
      }
    }
  }

  // ----- all of the data

  /** Decoding the first byte of a stream leaves the encoder's model, interval and stream. */
  lemma FirstByte(md: Model, v: byte, i: Interval, rest: seq<byte>, limit: nat)
    requires Healthy(md) && Ready(i)
    requires Holds(EncodeValue(md, md.hist, v, i).i, Window(rest))
    ensures var e := EncodeValue(md, md.hist, v, i);
            && Holds(i, Window(e.bytes + rest))
            && Healthy(Advance(e.md, v))
            && Decode(md, i, e.bytes + rest, limit)
               == if limit == 0 then Rejected else Prepend(v, Decode(Advance(e.md, v), e.i, rest, limit - 1))
  {
    ValueRoundTrip(md, md.hist, v, i, rest);
    LearnAgree(md, md.hist, v, i);
    AdvanceHealthy(EncodeValue(md, md.hist, v, i).md, v);
  }

  lemma NoMoreBytes(md: Model, i: Interval, limit: nat)
    requires Healthy(md) && Ready(i)
    ensures Holds(i, Window(Flush(i.low)))
    ensures Decode(md, i, Flush(i.low), limit) == Output([])
  {
    FlushWindow(i.low);
    LowDecodesToEnd(md, md.hist, i, Flush(i.low));
  }

  function Expected(data: seq<byte>, limit: nat): Outcome {
    if |data| <= limit then Output(data) else Rejected
  }

  lemma {:induction false} EncodeDecode(md: Model, data: seq<byte>, i: Interval, limit: nat)
    requires Healthy(md) && Ready(i)
    ensures Holds(i, Window(Encode(md, data, i)))
    ensures Decode(md, i, Encode(md, data, i), limit) == Expected(data, limit)
    decreases |data|
  {
    hide EncodeValue, Advance, Window, Holds, Decode, AllBalanced;
    if data == [] {
      NoMoreBytes(md, i, limit);
    } else {
      var v := data[0];
      var e := EncodeValue(md, md.hist, v, i);
      AdvanceHealthy(e.md, v);
      var next := if limit == 0 then 0 else limit - 1;
      EncodeDecode(Advance(e.md, v), data[1..], e.i, next);
      FirstByte(md, v, i, Encode(Advance(e.md, v), data[1..], e.i), limit);
      assert data == [v] + data[1..];
    }
  }

  /** The main result: a stream made from any data reads back as that data in an
      output buffer that holds it, and is rejected in one that does not. */
  lemma StreamRoundTrip(data: seq<byte>, limit: nat)
    ensures Unstream(Stream(data), limit) == Expected(data, limit)
  {
    InitialHealthy();
    EncodeDecode(INITIAL, data, FULL, limit);
  }

  /** So no two inputs share a stream. */
  lemma StreamInjective(a: seq<byte>, b: seq<byte>)
    requires Stream(a) == Stream(b)
    ensures a == b
  {
    var n := |a| + |b|;
    StreamRoundTrip(a, n);
    StreamRoundTrip(b, n);
  }
}
