/**
 Dropping unreliable packets under a throttle: how many of them go, and which commands a
 drop takes from the queue.
 */
module PacketThrottle {
  import opened ReliableWindows
  import opened Fragments
  import opened OutgoingPeer
  import opened OutgoingNumbers

  const THROTTLE_COUNTER := 7
  const THROTTLE_SCALE := 32

  // ----- how many

  function NextCounter(c: nat): (d: nat)
    ensures d < THROTTLE_SCALE
  {
    (c + THROTTLE_COUNTER) % THROTTLE_SCALE
  }

  /** How many of `k` packets in a row are dropped, from a counter on. */
  function Drops(c: nat, throttle: nat, k: nat): nat
    decreases k
  {
    if k == 0 then 0
    else
      var d := NextCounter(c);
      (if d > throttle then 1 else 0) + Drops(d, throttle, k - 1)
  }

  /** The same, counted by the value `x` of the counter. */
  function Hits(c: nat, x: nat, k: nat): nat
    decreases k
  {
    if k == 0 then 0
    else
      var d := NextCounter(c);
      (if d == x then 1 else 0) + Hits(d, x, k - 1)
  }

  function HitsAbove(c: nat, throttle: nat, k: nat): nat
    decreases THROTTLE_SCALE - throttle
  {
    if throttle + 1 >= THROTTLE_SCALE then 0 else Hits(c, throttle + 1, k) + HitsAbove(c, throttle + 1, k)
  }

  lemma {:induction false} HitsAboveNext(c: nat, throttle: nat, k: nat)
    requires k > 0
    ensures var d := NextCounter(c);
            HitsAbove(c, throttle, k) == (if d > throttle then 1 else 0) + HitsAbove(d, throttle, k - 1)
    decreases THROTTLE_SCALE - throttle
  {
    hide NextCounter;
    if throttle + 1 < THROTTLE_SCALE {
      HitsAboveNext(c, throttle + 1, k);
    }
  }

  lemma {:induction false} DropsAreHits(c: nat, throttle: nat, k: nat)
    ensures Drops(c, throttle, k) == HitsAbove(c, throttle, k)
    decreases k
  {
    hide NextCounter;
    if k > 0 {
      DropsAreHits(NextCounter(c), throttle, k - 1);
      HitsAboveNext(c, throttle, k);
    } else {
      NoHits(c, throttle);
    }
  }

  lemma {:induction false} NoHits(c: nat, throttle: nat)
    ensures HitsAbove(c, throttle, 0) == 0
    decreases THROTTLE_SCALE - throttle
  {
    if throttle + 1 < THROTTLE_SCALE {
      NoHits(c, throttle + 1);
    }
  }

  /** The counter has value `x` once in 32 packets: at the one packet for which 7 times its
      number is the distance. */
  lemma {:induction false} HitsFrom(c: nat, x: nat, k: nat)
    requires x < THROTTLE_SCALE && k <= THROTTLE_SCALE
    ensures Hits(c, x, k) == if HitAt(c, x) <= k then 1 else 0
    decreases k
  {
    if k > 0 {
      HitsFrom(NextCounter(c), x, k - 1);
      HitMoves(c, x);
    }
  }

  /** 23 is the inverse of 7 modulo 32. */
  function HitAt(c: nat, x: nat): (j: nat)
    ensures 1 <= j <= THROTTLE_SCALE
  {
    var j: int := 23 * (x - c) % THROTTLE_SCALE;
    if j == 0 then THROTTLE_SCALE else j
  }

  lemma HitMoves(c: nat, x: nat)
    requires x < THROTTLE_SCALE
    ensures var d := NextCounter(c);
            if d == x then HitAt(c, x) == 1 && HitAt(d, x) == THROTTLE_SCALE
            else HitAt(c, x) > 1 && HitAt(d, x) == HitAt(c, x) - 1
  {
    var d, q := NextCounter(c), (c + THROTTLE_COUNTER) / THROTTLE_SCALE;
    var a, b: int := 23 * (x - c), 23 * (x - d);
    assert d == c + 7 - 32 * q;
    assert b == a - 1 + 32 * (23 * q - 5);
    OneLess(a, b, 23 * q - 5);
    if d == x {
      assert a == 1 + 32 * (5 - 23 * q);
      Remainder(a, 5 - 23 * q, 1);
    } else if a % 32 == 1 {
      var t, y := a / 32, x - c;
      assert 23 * y == 1 + 32 * t;
      assert x == c + 7 + 32 * (7 * t - 5 * y);
      Unique(c + 7, x, d, 7 * t - 5 * y, -q);
    }
  }

  lemma OneLess(a: int, b: int, m: int)
    requires b == a - 1 + 32 * m
    ensures b % 32 == if a % 32 == 0 then 31 else a % 32 - 1
  {
    Remainder(b, a / 32 + m - if a % 32 == 0 then 1 else 0, if a % 32 == 0 then 31 else a % 32 - 1);
  }

  lemma Remainder(a: int, q: int, r: nat)
    requires a == q * 32 + r && r < 32
    ensures a % 32 == r
  {
  }

  lemma Unique(z: int, x: nat, d: nat, p: int, q: int)
    requires x == z + 32 * p && d == z + 32 * q && x < 32 && d < 32
    ensures x == d
  {
  }

  lemma {:induction false} AboveShare(c: nat, throttle: nat)
    requires throttle < THROTTLE_SCALE
    ensures HitsAbove(c, throttle, THROTTLE_SCALE) == THROTTLE_SCALE - 1 - throttle
    decreases THROTTLE_SCALE - throttle
  {
    hide Hits;
    if throttle + 1 < THROTTLE_SCALE {
      HitsFrom(c, throttle + 1, THROTTLE_SCALE);
      AboveShare(c, throttle + 1);
    }
  }

  /** Of any 32 packets in a row, wherever the counter stands, exactly one more is sent than
      the throttle says. */
  lemma ThrottleShare(c: nat, throttle: nat)
    requires throttle < THROTTLE_SCALE
    ensures THROTTLE_SCALE - Drops(c, throttle, THROTTLE_SCALE) == throttle + 1
  {
    DropsAreHits(c, throttle, THROTTLE_SCALE);
    AboveShare(c, throttle);
  }

  /** At the full throttle, and already one below it, none is dropped, however many there are. */
  lemma {:induction false} NoneDropped(c: nat, throttle: nat, k: nat)
    requires throttle >= THROTTLE_SCALE - 1
    ensures Drops(c, throttle, k) == 0
    decreases k
  {
    if k > 0 {
      NoneDropped(NextCounter(c), throttle, k - 1);
    }
  }

  // ----- which

  /** The drop goes by the numbers on the wire. */
  predicate EqualNumbers(a: Other, b: Other) {
    a.number == b.number && a.unreliable == b.unreliable
  }

  /** Where a drop that begins at `k` ends, when it has come to `e`. */
  function DropEnd(list: seq<Other>, k: nat, e: nat): (end: nat)
    requires k < e <= |list|
    ensures e <= end <= |list|
    ensures forall j :: e <= j < end ==> EqualNumbers(list[j], list[k])
    ensures end < |list| ==> !EqualNumbers(list[end], list[k])
    decreases |list| - e
  {
    if e < |list| && EqualNumbers(list[e], list[k]) then DropEnd(list, k, e + 1) else e
  }

  predicate SamePacket(a: Other, b: Other) {
    && (a.kind.SendUnsequenced? <==> b.kind.SendUnsequenced?)
    && a.n == b.n
    && (a.kind.SendUnsequenced? || (a.channel == b.channel && a.unreliable == b.unreliable))
  }

  /** Where the packet of the command at `k` ends. */
  function PacketEnd(list: seq<Other>, k: nat, e: nat): (end: nat)
    requires k < e <= |list|
    ensures e <= end <= |list|
    ensures forall j :: e <= j < end ==> SamePacket(list[k], list[j])
    ensures end < |list| ==> !SamePacket(list[k], list[end])
    decreases |list| - e
  {
    if e < |list| && SamePacket(list[k], list[e]) then PacketEnd(list, k, e + 1) else e
  }

  /** The commands of a packet stand together. */
  ghost predicate Together(list: seq<Other>) {
    forall i, j, l :: 0 <= i < j < l < |list| && SamePacket(list[i], list[l]) ==> SamePacket(list[i], list[j])
  }

  lemma SamePacketNumbers(list: seq<Other>, r: Rest, channels: seq<Channel>, i: nat, j: nat)
    requires Ranked(r, channels) && list == r.list && i < |list| && j < |list| && SamePacket(list[i], list[j])
    ensures EqualNumbers(list[j], list[i])
  {
    assert Placed(list[i], r, channels) && Placed(list[j], r, channels);
  }

  /** A drop takes all of the packet that is still queued. */
  lemma WholePacketGoes(r: Rest, channels: seq<Channel>, k: nat)
    requires Ranked(r, channels) && Together(r.list) && k < |r.list|
    ensures forall j :: k < j < |r.list| && SamePacket(r.list[k], r.list[j]) ==> j < DropEnd(r.list, k, k + 1)
  {
    hide Ranked, SamePacket, EqualNumbers;
    var end := DropEnd(r.list, k, k + 1);
    forall j | k < j < |r.list| && SamePacket(r.list[k], r.list[j]) ensures j < end {
      if end <= j {
        assert SamePacket(r.list[k], r.list[end]);
        SamePacketNumbers(r.list, r, channels, k, end);
      }
    }
  }

  /** It takes nothing else exactly when the command behind the packet has other numbers. */
  lemma OnlyItGoesExactly(r: Rest, channels: seq<Channel>, k: nat)
    requires Ranked(r, channels) && Together(r.list) && k < |r.list|
    ensures var own, end := PacketEnd(r.list, k, k + 1), DropEnd(r.list, k, k + 1);
            && own <= end
            && (end == own <==> own == |r.list| || !EqualNumbers(r.list[own], r.list[k]))
            && (end != own ==> !SamePacket(r.list[k], r.list[own]))
  {
    hide Ranked, SamePacket, EqualNumbers;
    WholePacketGoes(r, channels, k);
  }

  /** Commands of different packets have equal numbers when both are unsequenced; or when
      neither is and they have the same count, on different channels or rounds apart. */
  lemma OthersAlikeExactly(r: Rest, channels: seq<Channel>, i: nat, j: nat)
    requires Ranked(r, channels) && i < |r.list| && j < |r.list|
    ensures var a, b := r.list[i], r.list[j];
            EqualNumbers(a, b) && !SamePacket(a, b) <==>
              if a.kind.SendUnsequenced? then b.kind.SendUnsequenced? && a.n != b.n
              else
                && !b.kind.SendUnsequenced? && a.unreliable == b.unreliable && Wire(a.n) == Wire(b.n)
                && (a.channel != b.channel || a.n != b.n)
  {
    assert Placed(r.list[i], r, channels) && Placed(r.list[j], r, channels);
    hide Wire;
  }

  /** Two unsequenced packets in a row go together. */
  lemma TwoUnsequencedGo(r: Rest, h: Channel, c: nat, d: nat, length: nat, length': nat)
    requires c < |r.unreliable| && d < |r.unreliable| && r.list == []
    ensures var s := Setup(Setup(r, h, SendUnsequenced, c, 0, length), h, SendUnsequenced, d, 0, length');
            |s.list| == 2 && !SamePacket(s.list[0], s.list[1]) && DropEnd(s.list, 0, 1) == 2
  {
  }

  /** So do the first packets of two channels, if as many reliable ones went before them. */
  lemma TwoChannelsGo(r: Rest, g: Channel, h: Channel, c: nat, d: nat, length: nat, length': nat)
    requires c < |r.unreliable| && d < |r.unreliable| && c != d && r.list == []
    requires r.unreliable[c] == r.unreliable[d] && g.number == h.number
    ensures var s := Setup(Setup(r, g, SendUnreliable, c, 0, length), h, SendUnreliable, d, 0, length');
            |s.list| == 2 && !SamePacket(s.list[0], s.list[1]) && DropEnd(s.list, 0, 1) == 2
  {
  }

  // ----- the queue stays in order

  function Cut(list: seq<Other>, k: nat, e: nat): seq<Other>
    requires k <= e <= |list|
  {
    list[..k] + list[e..]
  }

  lemma CutKeeps(r: Rest, channels: seq<Channel>, k: nat, e: nat)
    requires Ranked(r, channels) && Together(r.list) && k <= e <= |r.list|
    ensures Ranked(r.(list := Cut(r.list, k, e)), channels) && Together(Cut(r.list, k, e))
  {
    hide Before, Wire, SamePacket;
    var s := r.(list := Cut(r.list, k, e));
    forall i | 0 <= i < |s.list| ensures Placed(s.list[i], s, channels) {
      assert Placed(r.list[if i < k then i else i + (e - k)], r, channels);
    }
  }

  /** A packet's commands, sent together, stand together. */
  lemma PiecesTogether(r: Rest, channels: seq<Channel>, flags: Flags, cut: bool, c: nat, size: nat, fl: Length)
    requires Ranked(r, channels) && Together(r.list) && c < |channels| && (cut <==> size > fl)
    ensures c < |r.unreliable|
    ensures var kind := Chosen(flags, cut, r.unreliable[c]);
            Together(SetupPieces(r, channels[c], kind, c, size, fl, Pieces(size, fl)).list)
  {
    hide Wire, Pieces, Placed, Together, Before;
    assert c < |r.unreliable|;
    var kind, k, h := Chosen(flags, cut, r.unreliable[c]), Pieces(size, fl), channels[c];
    var s := SetupPieces(r, h, kind, c, size, fl, k);
    if Acknowledged(kind) {
      ListStays(r, h, kind, c, size, fl, k);
    } else if kind.SendUnsequenced? {
      OneIsEnough(size, fl);
      assert SetupPieces(r, h, kind, c, size, fl, 0) == r;
      OneMoreTogether(r, s, channels);
    } else {
      PiecesAdded(r, h, kind, c, size, fl, k);
      AddedTogether(r, s, channels, kind, c, fl, k);
    }
  }

  lemma {:induction false} ListStays(r: Rest, h: Channel, kind: Kind, c: nat, size: nat, fl: Length, k: nat)
    requires c < |r.unreliable| && Acknowledged(kind) && k <= Pieces(size, fl)
    ensures SetupPieces(r, h, kind, c, size, fl, k).list == r.list
  {
    hide Pieces;
    if k > 0 {
      ListStays(r, h, kind, c, size, fl, k - 1);
    }
  }

  lemma OneMoreTogether(r: Rest, s: Rest, channels: seq<Channel>)
    requires Ranked(r, channels) && Together(r.list) && |s.list| == |r.list| + 1 && s.list[..|r.list|] == r.list
    requires s.list[|r.list|].kind.SendUnsequenced? && s.list[|r.list|].n == r.groups + 1
    ensures Together(s.list)
  {
    hide Wire, Before;
    var x := s.list[|r.list|];
    forall i, j, l | 0 <= i < j < l < |s.list| && SamePacket(s.list[i], s.list[l])
      ensures SamePacket(s.list[i], s.list[j])
    {
      assert s.list[i] == r.list[i] && s.list[j] == r.list[j];
      assert Placed(r.list[i], r, channels);
      if l < |r.list| {
        assert s.list[l] == r.list[l];
      }
    }
  }

  lemma AddedTogether(r: Rest, s: Rest, channels: seq<Channel>, kind: Kind, c: nat, fl: Length, k: nat)
    requires Ranked(r, channels) && Together(r.list) && c < |channels| == |s.unreliable|
    requires Added(r, s, channels[c], kind, c, fl, k) && (kind.SendUnreliable? || kind.SendUnreliableFragment?)
    ensures Together(s.list)
  {
    hide Wire, Before, From;
    forall i, j, l | 0 <= i < j < l < |s.list| && SamePacket(s.list[i], s.list[l])
      ensures SamePacket(s.list[i], s.list[j])
    {
      if i < |r.list| {
        assert s.list[i] == s.list[..|r.list|][i] == r.list[i];
        assert Placed(r.list[i], r, channels);
        if l < |r.list| {
          assert s.list[j] == s.list[..|r.list|][j] == r.list[j] && s.list[l] == s.list[..|r.list|][l] == r.list[l];
        }
      }
    }
  }
}
