/**
 The range coder's registers at work: 32-bit variables, the bytes written to an
 output buffer of limited size, and the bytes shifted in from the input.
 */
module RangeRegisters {
  import opened Words
  import opened Interval
  import opened RangeCoderSpec

  /** Appends a byte to the output unless the buffer is full. */
  method RangeOutput(value: byte, outData: array<byte>, outStart: nat, outEnd: nat) returns (ok: bool, out: nat)
    requires outStart <= outEnd <= outData.Length
    modifies outData
    ensures ok == (outStart < outEnd)
    ensures out == outStart + if ok then 1 else 0
    ensures outData[..out] == old(outData[..outStart]) + if ok then [value] else []
    ensures outData[outEnd..] == old(outData[outEnd..])
  {
    if outStart >= outEnd {
      return false, outStart;
    }
    outData[outStart] := value;
    return true, outStart + 1;
  }

  lemma Append(s: seq<byte>, t: seq<byte>, b: byte, u: seq<byte>)
    ensures s + t + [b] == s + (t + [b]) && (t + [b]) + u == t + ([b] + u)
  {
  }

  /** Narrows the interval and writes out the bytes that are settled. Fails when the
      buffer is full. */
  method RangeEncode(low: u32, range: u32, under: nat, count: nat, total: nat, outData: array<byte>, outStart: nat,
      outEnd: nat)
    returns (ok: bool, encodeLow: u32, encodeRange: u32, out: nat)
    requires Ready(Interval(low, range)) && ValidSlice(Slice(under, count, total))
    requires outStart <= outEnd <= outData.Length
    modifies outData
    ensures var (bytes, k) := Code(Interval(low, range), Slice(under, count, total));
            && ok == (outStart + |bytes| <= outEnd)
            && (ok ==> out == outStart + |bytes| && outData[..out] == old(outData[..outStart]) + bytes
                       && Interval(encodeLow, encodeRange) == k)
    ensures outData[outEnd..] == old(outData[outEnd..])
  {
    hide Squeeze, Shift, TopsDiffer, Narrow, Normalise, Settled, Steps, U32, ToBoundary, Valid;
    ghost var narrow := Narrow(Interval(low, range), Slice(under, count, total));
    NarrowRegisters(Interval(low, range), Slice(under, count, total));
    encodeRange := range / total;
    encodeLow := U32(low + under * encodeRange);
    encodeRange := U32(encodeRange * count);
    out := outStart;
    ghost var emitted: seq<byte> := [];
    assert [] + Normalise(narrow).0 == Normalise(narrow).0;
    while true
      invariant Valid(Interval(encodeLow, encodeRange))
      invariant Normalise(narrow) == (emitted + Normalise(Interval(encodeLow, encodeRange)).0,
                                      Normalise(Interval(encodeLow, encodeRange)).1)
      invariant outStart <= out == outStart + |emitted| <= outEnd
      invariant outData[..out] == old(outData[..outStart]) + emitted
      invariant outData[outEnd..] == old(outData[outEnd..])
      decreases Steps(Interval(encodeLow, encodeRange))
    {
      ghost var i := Interval(encodeLow, encodeRange);
      RegisterTops(i);
      if encodeLow / TOP != U32(encodeLow + encodeRange) / TOP {
        if encodeRange >= BOTTOM {
          break;
        }
        encodeRange := ToBoundary(encodeLow);
      }
      ShiftSteps(i);
      ShiftRegisters(i, Interval(encodeLow, encodeRange));
      ok, out := RangeOutput(encodeLow / TOP, outData, out, outEnd);
      if !ok {
        return;
      }
      Append(old(outData[..outStart]), emitted, encodeLow / TOP, Normalise(Shift(Interval(encodeLow, encodeRange))).0);
      emitted := emitted + [encodeLow / TOP];
      encodeRange := U32(encodeRange * 256);
      encodeLow := U32(encodeLow * 256);
    }
    ok := true;
  }

  lemma NarrowRegisters(i: Interval, s: Slice)
    requires Ready(i) && ValidSlice(s) && i.low < TWO32 && i.range < TWO32
    ensures var q := i.range / s.total;
            && q < TWO32
            && Narrow(i, s) == Interval(U32(i.low + s.under * q), U32(q * s.count))
  {
    NarrowStaysInside(i.range, s);
    DivWithin(i.range, s.total, 0, i.range + 1);
  }

  lemma RegisterTops(i: Interval)
    requires Valid(i)
    ensures TopsDiffer(i) <==> i.low / TOP != U32(i.low + i.range) / TOP
    ensures Settled(i) <==> TopsDiffer(i) && i.range >= BOTTOM
    ensures TopsDiffer(i) && i.range < BOTTOM ==> Squeeze(i) == Interval(i.low, ToBoundary(i.low))
    ensures !TopsDiffer(i) ==> Squeeze(i) == i
    ensures Settled(i) ==> Normalise(i) == ([], i)
  {
  }

  lemma ShiftRegisters(i: Interval, j: Interval)
    requires Valid(i) && !Settled(i) && j == Squeeze(i)
    ensures Valid(Shift(j)) && Steps(Shift(j)) < Steps(i)
    ensures j.low < TWO32 && j.range < TWO32 && Shift(j) == Interval(U32(j.low * 256), U32(j.range * 256))
    ensures Normalise(i) == ([j.low / TOP] + Normalise(Shift(j)).0, Normalise(Shift(j)).1)
  {
    ShiftSteps(i);
    SqueezeKeeps(i);
  }

  /** Writes `low` up to its last non-zero byte. */
  method RangeFlush(low: u32, outData: array<byte>, outStart: nat, outEnd: nat) returns (ok: bool, out: nat)
    requires outStart <= outEnd <= outData.Length
    modifies outData
    ensures ok == (outStart + |Flush(low)| <= outEnd)
    ensures ok ==> out == outStart + |Flush(low)| && outData[..out] == old(outData[..outStart]) + Flush(low)
    ensures outData[outEnd..] == old(outData[outEnd..])
  {
    var encodeLow: u32 := low;
    out := outStart;
    ghost var emitted: seq<byte> := [];
    while encodeLow != 0
      invariant Flush(low) == emitted + Flush(encodeLow)
      invariant outStart <= out == outStart + |emitted| <= outEnd
      invariant outData[..out] == old(outData[..outStart]) + emitted
      invariant outData[outEnd..] == old(outData[outEnd..])
      decreases ZeroTail(encodeLow)
    {
      ZeroTailShrinks(encodeLow);
      ok, out := RangeOutput(encodeLow / TOP, outData, out, outEnd);
      if !ok {
        return;
      }
      Append(old(outData[..outStart]), emitted, encodeLow / TOP, Flush(U32(encodeLow * 256)));
      emitted := emitted + [encodeLow / TOP];
      encodeLow := U32(encodeLow * 256);
    }
    ok := true;
  }

  /** The decoder's view of its input after `shifts` bytes went through the window. */
  ghost predicate Reading(inData: seq<byte>, shifts: nat, decodeCode: u32, inPos: nat) {
    decodeCode == Window(Drop(inData, shifts)) && inPos == if 4 + shifts <= |inData| then 4 + shifts else |inData|
  }

  /** The 16-bit quotient the decoder looks up; `range / total` is kept by the caller. */
  method RangeRead(decodeCode: u32, decodeLow: u32, decodeRange: u32, total: nat) returns (part: u16)
    requires Ready(Interval(decodeLow, decodeRange)) && 1 <= total < BOTTOM
    ensures part == Read(Interval(decodeLow, decodeRange), total, decodeCode)
  {
    ReadQuotient(decodeRange, total);
    part := U16(U32(decodeCode - decodeLow) / (decodeRange / total));
  }

  lemma ReadingWindow(inData: seq<byte>, shifts: nat, decodeCode: u32, inPos: nat)
    requires Reading(inData, shifts, decodeCode, inPos)
    ensures Window(Drop(inData, shifts)) == decodeCode
  {
  }

  /** The first four bytes of the input, as far as it goes. */
  method RangeSeed(inData: seq<byte>) returns (decodeCode: u32, inPos: nat)
    ensures Reading(inData, 0, decodeCode, inPos)
  {
    assert Drop(inData, 0) == inData;
    decodeCode, inPos := 0, 0;
    if inPos < |inData| { decodeCode := U32(decodeCode + (inData[inPos] as int) * 0x100_0000); inPos := inPos + 1; }
    if inPos < |inData| { decodeCode := U32(decodeCode + (inData[inPos] as int) * 0x1_0000); inPos := inPos + 1; }
    if inPos < |inData| { decodeCode := U32(decodeCode + (inData[inPos] as int) * 0x100); inPos := inPos + 1; }
    if inPos < |inData| { decodeCode := U32(decodeCode + inData[inPos]); inPos := inPos + 1; }
  }

  lemma ReadShift(inData: seq<byte>, shifts: nat, decodeCode: u32, inPos: nat)
    requires Reading(inData, shifts, decodeCode, inPos)
    ensures var next := if inPos < |inData| then inData[inPos] else 0;
            && U32(decodeCode * 256) + next < TWO32
            && Reading(inData, shifts + 1, U32(decodeCode * 256) + next, if inPos < |inData| then inPos + 1 else inPos)
  {
    var s := Drop(inData, shifts);
    WindowShift(s);
    assert Drop(s, 1) == Drop(inData, shifts + 1);
  }

  lemma DropDrop(s: seq<byte>, a: nat, b: nat)
    ensures Drop(Drop(s, a), b) == Drop(s, a + b)
  {
  }

  /** Narrows the interval and shifts as many bytes in as the encoder shifted out.
      `quotient` is the range already divided by the total. */
  method RangeDecode(low: u32, quotient: u32, under: nat, count: nat, ghost i: Interval, ghost s: Slice,
      code: u32, inData: seq<byte>, inStart: nat, ghost shifts: nat)
    returns (decodeLow: u32, decodeRange: u32, decodeCode: u32, inPos: nat, ghost shifted: nat)
    requires Ready(i) && ValidSlice(s) && i.low == low && i.range < TWO32
    requires s.under == under && s.count == count && quotient == i.range / s.total
    requires Reading(inData, shifts, code, inStart)
    ensures Take(i, s, Drop(inData, shifts)) == (Interval(decodeLow, decodeRange), Drop(inData, shifted))
    ensures Reading(inData, shifted, decodeCode, inPos)
  {
    hide Squeeze, Shift, TopsDiffer, Narrow, Window, Normalise, Settled, Steps, U32, ToBoundary, Drop, Reading;
    ghost var narrow := Narrow(i, s);
    NarrowRegisters(i, s);
    decodeLow := U32(low + under * quotient);
    decodeRange := U32(quotient * count);
    decodeCode, inPos, shifted := code, inStart, shifts;
    ghost var emitted: seq<byte> := [];
    assert [] + Normalise(narrow).0 == Normalise(narrow).0;
    while true
      invariant Valid(Interval(decodeLow, decodeRange))
      invariant Normalise(narrow) == (emitted + Normalise(Interval(decodeLow, decodeRange)).0,
                                      Normalise(Interval(decodeLow, decodeRange)).1)
      invariant Reading(inData, shifted, decodeCode, inPos) && shifted == shifts + |emitted|
      decreases Steps(Interval(decodeLow, decodeRange))
    {
      ghost var j := Interval(decodeLow, decodeRange);
      RegisterTops(j);
      if decodeLow / TOP != U32(decodeLow + decodeRange) / TOP {
        if decodeRange >= BOTTOM {
          break;
        }
        decodeRange := ToBoundary(decodeLow);
      }
      ShiftSteps(j);
      ShiftRegisters(j, Interval(decodeLow, decodeRange));
      Append([], emitted, decodeLow / TOP, Normalise(Shift(Interval(decodeLow, decodeRange))).0);
      emitted := emitted + [decodeLow / TOP];
      ReadShift(inData, shifted, decodeCode, inPos);
      decodeCode := U32(decodeCode * 256);
      if inPos < |inData| {
        decodeCode := U32(decodeCode + inData[inPos]);
        inPos := inPos + 1;
      }
      shifted := shifted + 1;
      decodeRange := U32(decodeRange * 256);
      decodeLow := U32(decodeLow * 256);
    }
    DropDrop(inData, shifts, |emitted|);
  }
}
