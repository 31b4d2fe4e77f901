/**
 Splitting a packet into pieces no longer than the peer's fragment length, and what a
 partly reassembled packet holds.
 */
module Fragments {
  import opened Words
  import opened ReliableWindows
  import opened ReliableReceiver

  /** The fragment length that the peer's mtu leaves; at least one byte. */
  type Length = x: nat | 1 <= x witness 1

  /** How many sequence numbers a packet takes: one, or one a fragment. */
  function Pieces(size: nat, fl: Length): (k: nat)
    ensures k >= 1 && (k == 1 <==> size <= fl)
  {
    if size <= fl then 1 else (size + fl - 1) / fl
  }

  function From(j: nat, fl: Length): nat {
    j * fl
  }

  function To(j: nat, size: nat, fl: Length): nat {
    if (j + 1) * fl <= size then (j + 1) * fl else size
  }

  /** The pieces of a fragmented packet are non-empty, no longer than `fl`, and end
      where the next one starts; the last one ends the packet. */
  lemma PiecesPartition(size: nat, fl: Length, j: nat)
    requires size > fl && j < Pieces(size, fl)
    ensures From(j, fl) < To(j, size, fl) <= size
    ensures To(j, size, fl) - From(j, fl) <= fl
    ensures j + 1 < Pieces(size, fl) ==> To(j, size, fl) == From(j + 1, fl)
    ensures j + 1 == Pieces(size, fl) ==> To(j, size, fl) == size
    ensures Pieces(size, fl) <= size
  {
    var k := (size + fl - 1) / fl;
    assert size + fl - 1 == k * fl + (size + fl - 1) % fl;
    assert (j + 1) * fl == j * fl + fl;
    assert (k - 1) * fl == k * fl - fl;
    MulLe(j + 1, k, fl);
    if j + 1 < k {
      MulLe(j + 2, k, fl);
      assert (j + 2) * fl == j * fl + 2 * fl;
    }
    MulLe(1, fl, k);
    if size < k {
      MulLe(k, k, fl);
      MulLe(fl, fl, k);
      PiecesAtMostSize(size, fl, k);
    }
  }

  lemma PiecesAtMostSize(size: nat, fl: Length, k: nat)
    requires size > fl && k * fl <= size + fl - 1
    ensures k <= size
  {
    if k > size {
      MulLe(size + 1, k, fl);
      assert (size + 1) * fl == size * fl + fl;
      MulLe(1, fl, size);
    }
  }

  /** Two different pieces do not overlap. */
  lemma PiecesDisjoint(size: nat, fl: Length, i: nat, j: nat)
    requires size > fl && i < j < Pieces(size, fl)
    ensures To(i, size, fl) <= From(j, fl)
  {
    MulLe(i + 1, j, fl);
  }

  /** The piece a byte lies in. */
  lemma PieceOf(size: nat, fl: Length, p: nat) returns (j: nat)
    requires size > fl && p < size
    ensures j < Pieces(size, fl) && From(j, fl) <= p < To(j, size, fl)
  {
    j := p / fl;
    assert p == j * fl + p % fl;
    assert (j + 1) * fl == j * fl + fl;
    var k := (size + fl - 1) / fl;
    assert size + fl - 1 == k * fl + (size + fl - 1) % fl;
    if j >= k {
      MulLe(k, j, fl);
    }
  }

  // ----- reassembly

  function Clear(got: seq<bool>): nat {
    if got == [] then 0 else Clear(got[..|got| - 1]) + if got[|got| - 1] then 0 else 1
  }

  lemma {:induction false} ClearSet(got: seq<bool>, j: nat)
    requires j < |got|
    ensures Clear(got[j := true]) == Clear(got) - if got[j] then 0 else 1
  {
    var n := |got| - 1;
    if j < n {
      assert got[j := true][..n] == got[..n][j := true];
      ClearSet(got[..n], j);
    } else {
      assert got[j := true][..n] == got[..n];
    }
  }

  lemma {:induction false} ClearNone(got: seq<bool>)
    ensures Clear(got) == 0 <==> forall j :: 0 <= j < |got| ==> got[j]
  {
    if got != [] {
      ClearNone(got[..|got| - 1]);
      assert forall j :: 0 <= j < |got| - 1 ==> got[..|got| - 1][j] == got[j];
    }
  }

  lemma {:induction false} ClearAll(k: nat)
    ensures Clear(seq(k, _ => false)) == k
  {
    if k > 0 {
      assert seq(k, _ => false)[..k - 1] == seq(k - 1, _ => false);
      ClearAll(k - 1);
    }
  }

  ghost predicate PieceCopied(data: seq<byte>, packet: seq<byte>, fl: Length, j: nat)
    requires |data| == |packet| > fl && j < Pieces(|packet|, fl)
  {
    PiecesPartition(|packet|, fl, j);
    data[From(j, fl)..To(j, |packet|, fl)] == packet[From(j, fl)..To(j, |packet|, fl)]
  }

  /** A stored command for a packet: complete, or holding the pieces it has marked. */
  ghost predicate EntryFor(e: Incoming, packet: seq<byte>, fl: Length, number: u16) {
    && e.number == number
    && |e.data| == |packet|
    && if |packet| <= fl then e.fragmentCount == 0 && e.remaining == 0 && e.data == packet
       else
         && e.fragmentCount == |e.got| == Pieces(|packet|, fl)
         && e.remaining == Clear(e.got)
         && (forall j :: 0 <= j < |e.got| && e.got[j] ==> PieceCopied(e.data, packet, fl, j))
  }

  /** An entry with nothing missing holds the whole packet. */
  lemma EntryComplete(e: Incoming, packet: seq<byte>, fl: Length, number: u16)
    requires EntryFor(e, packet, fl, number) && e.remaining <= 0
    ensures e.data == packet
  {
    if |packet| > fl {
      ClearNone(e.got);
      forall p | 0 <= p < |packet| ensures e.data[p] == packet[p] {
        var j := PieceOf(|packet|, fl, p);
        assert PieceCopied(e.data, packet, fl, j);
        var a, b := From(j, fl), To(j, |packet|, fl);
        assert e.data[a..b][p - a] == packet[a..b][p - a];
      }
    }
  }

  /** The fragment that carries piece `j` of a packet. */
  function PieceFragment(packet: seq<byte>, fl: Length, first: nat, j: nat): Fragment
    requires |packet| > fl && j < Pieces(|packet|, fl)
  {
    PiecesPartition(|packet|, fl, j);
    Fragment(Wire(first + j), Wire(first), j, Pieces(|packet|, fl), From(j, fl), |packet|,
             packet[From(j, fl)..To(j, |packet|, fl)])
  }

  /** Adding a piece keeps an entry correct, marks that piece and no other, and counts
      it once however often it comes. */
  lemma AddFragmentKeeps(e: Incoming, packet: seq<byte>, fl: Length, number: u16, first: nat, j: nat)
    requires |packet| > fl && j < Pieces(|packet|, fl) && EntryFor(e, packet, fl, number)
    ensures var f := PieceFragment(packet, fl, first, j);
            && f.index < |e.got| && f.offset + |f.bytes| <= |e.data| && Matches(e, f)
            && EntryFor(AddFragment(e, f), packet, fl, number)
            && AddFragment(e, f).got == e.got[j := true]
            && AddFragment(AddFragment(e, f), f) == AddFragment(e, f)
  {
    PiecesPartition(|packet|, fl, j);
    var f := PieceFragment(packet, fl, first, j);
    var d := AddFragment(e, f);
    ClearSet(e.got, j);
    if !e.got[j] {
      forall i | 0 <= i < |d.got| && d.got[i] ensures PieceCopied(d.data, packet, fl, i) {
        PiecesPartition(|packet|, fl, i);
        if i == j {
          WriteHere(e.data, f.offset, f.bytes);
        } else {
          assert PieceCopied(e.data, packet, fl, i);
          if i < j {
            PiecesDisjoint(|packet|, fl, i, j);
          } else {
            PiecesDisjoint(|packet|, fl, j, i);
          }
          WriteElsewhere(e.data, f.offset, f.bytes, From(i, fl), To(i, |packet|, fl));
        }
      }
    }
  }

  lemma WriteHere(data: seq<byte>, offset: nat, bytes: seq<byte>)
    requires offset + |bytes| <= |data|
    ensures Write(data, offset, bytes)[offset..offset + |bytes|] == bytes
  {
  }

  lemma WriteElsewhere(data: seq<byte>, offset: nat, bytes: seq<byte>, a: nat, b: nat)
    requires offset + |bytes| <= |data| && a <= b <= |data| && (b <= offset || offset + |bytes| <= a)
    ensures Write(data, offset, bytes)[a..b] == data[a..b]
  {
  }

  /** A packet's entry as its first fragment opens it. */
  lemma OpenedKeeps(packet: seq<byte>, fl: Length, first: nat, j: nat, blank: seq<byte>)
    requires |packet| > fl && j < Pieces(|packet|, fl) && |blank| == |packet|
    ensures EntryFor(Opened(PieceFragment(packet, fl, first, j), blank), packet, fl, Wire(first))
  {
    ClearAll(Pieces(|packet|, fl));
  }
}
