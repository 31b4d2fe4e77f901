/**
 Which kind of command carries a packet, and the numbers of the commands that are not
 acknowledged: the count of unreliable packets since a channel's last reliable command,
 and a peer's groups of unsequenced packets.
 */
module OutgoingNumbers {
  import opened Words
  import opened ReliableWindows
  import opened Fragments
  import opened OutgoingPeer
  import opened ReliableProtocol

  datatype Kind = SendReliable | SendFragment | SendUnreliable | SendUnreliableFragment | SendUnsequenced

  predicate Acknowledged(kind: Kind) {
    kind.SendReliable? || kind.SendFragment?
  }

  datatype Flags = Flags(reliable: bool, unsequenced: bool, unreliableFragment: bool)

  const LAST_UNRELIABLE: u16 := 0xFFFF

  /** The kind for a packet that must be cut or not, when `count` unreliable ones were
      numbered since the last reliable command. */
  function Chosen(flags: Flags, cut: bool, count: u16): Kind {
    if cut then
      if !flags.reliable && flags.unreliableFragment && count < LAST_UNRELIABLE then SendUnreliableFragment
      else SendFragment
    else if !flags.reliable && flags.unsequenced then SendUnsequenced
    else if flags.reliable || count >= LAST_UNRELIABLE then SendReliable
    else SendUnreliable
  }

  /** What is sent reliably: what was asked to be, what must be cut and may not be cut
      otherwise, and what would need a count past the last one. */
  predicate SentReliably(flags: Flags, cut: bool, count: u16) {
    || flags.reliable
    || (cut && !flags.unreliableFragment)
    || (count == 0xFFFF && (cut || !flags.unsequenced))
  }

  lemma ChosenExactly(flags: Flags, cut: bool, count: u16)
    ensures var kind := Chosen(flags, cut, count);
            && (kind.SendReliable? || kind.SendFragment? <==> SentReliably(flags, cut, count))
            && (kind.SendFragment? || kind.SendUnreliableFragment? <==> cut)
            && (kind.SendUnsequenced? <==> flags.unsequenced && !flags.reliable && !cut)
  {
  }

  /** A command that is not acknowledged. An unsequenced one is the `n`th of its peer;
      another follows the `n`th reliable command of its channel. */
  datatype Other = Other(kind: Kind, channel: nat, number: u16, unreliable: u16, group: u16, offset: nat, length: nat,
    n: nat)

  /** What a peer has beside its reliable commands: each channel's count of unreliable
      packets, the last group, which is the `groups`th, and the commands queued. */
  datatype Rest = Rest(unreliable: seq<u16>, group: u16, groups: nat, list: seq<Other>)

  /** A command is numbered and queued; a reliable one only starts the count again. */
  function Setup(r: Rest, h: Channel, kind: Kind, c: nat, offset: nat, length: nat): Rest
    requires c < |r.unreliable|
  {
    if Acknowledged(kind) then r.(unreliable := r.unreliable[c := 0])
    else if kind.SendUnsequenced? then
      var g := U16(r.group + 1);
      r.(group := g, groups := r.groups + 1, list := r.list + [Other(kind, c, 0, 0, g, offset, length, r.groups + 1)])
    else
      var last: int := r.unreliable[c];
      var u := if offset == 0 then U16(last + 1) else r.unreliable[c];
      r.(unreliable := r.unreliable[c := u],
         list := r.list + [Other(kind, c, h.number, u, 0, offset, length, h.last)])
  }

  /** The first `k` pieces of a packet, queued in order. */
  function SetupPieces(r: Rest, h: Channel, kind: Kind, c: nat, size: nat, fl: Length, k: nat): (s: Rest)
    requires c < |r.unreliable| && k <= Pieces(size, fl)
    ensures |s.unreliable| == |r.unreliable|
  {
    if k == 0 then r
    else Setup(SetupPieces(r, h, kind, c, size, fl, k - 1), h, kind, c, From(k - 1, fl), PieceLength(size, fl, k - 1))
  }

  /** The commands an unacknowledged packet adds: one for each piece, of the kind that was
      asked for, with the bytes of that piece. */
  ghost predicate AddsPieces(before: seq<Other>, after: seq<Other>, kind: Kind, c: nat, size: nat, fl: Length, k: nat) {
    && |after| == |before| + k && k <= Pieces(size, fl) && after[..|before|] == before
    && forall i :: |before| <= i < |after| ==> IsPiece(after[i], kind, c, size, fl, i - |before|)
  }

  predicate IsPiece(o: Other, kind: Kind, c: nat, size: nat, fl: Length, j: nat)
    requires j < Pieces(size, fl)
  {
    o.kind == kind && o.channel == c && o.offset == From(j, fl) && o.length == PieceLength(size, fl, j)
  }

  lemma {:induction false} PiecesQueued(r: Rest, h: Channel, kind: Kind, c: nat, size: nat, fl: Length, k: nat)
    requires c < |r.unreliable| && k <= Pieces(size, fl)
    ensures var s := SetupPieces(r, h, kind, c, size, fl, k);
            if Acknowledged(kind) then s.list == r.list else AddsPieces(r.list, s.list, kind, c, size, fl, k)
  {
    hide PieceLength, From, Pieces;
    if k > 0 {
      PiecesQueued(r, h, kind, c, size, fl, k - 1);
      var s, t := SetupPieces(r, h, kind, c, size, fl, k - 1), SetupPieces(r, h, kind, c, size, fl, k);
      if !Acknowledged(kind) {
        assert t.list[..|r.list|] == t.list[..|s.list|][..|r.list|];
        forall i | |r.list| <= i < |t.list| ensures IsPiece(t.list[i], kind, c, size, fl, i - |r.list|) {
          assert i < |s.list| ==> t.list[i] == s.list[i];
        }
      }
    }
  }

  /** A reliable packet starts its channel's count again. */
  lemma {:induction false} OnlyRestarted(r: Rest, h: Channel, kind: Kind, c: nat, size: nat, fl: Length, k: nat)
    requires c < |r.unreliable| && Acknowledged(kind) && 1 <= k <= Pieces(size, fl)
    ensures SetupPieces(r, h, kind, c, size, fl, k) == r.(unreliable := r.unreliable[c := 0])
  {
    hide Pieces, PieceLength, From;
    if k > 1 {
      OnlyRestarted(r, h, kind, c, size, fl, k - 1);
    } else {
      assert SetupPieces(r, h, kind, c, size, fl, 0) == r;
    }
  }

  // ----- what the count counts

  /** The application sends a packet on a channel. */
  datatype Sending = Sending(channel: nat, flags: Flags, size: nat)

  /** How many packets were sent on a channel, neither reliably nor unsequenced, since the last
      one that was sent reliably. */
  function SinceReliable(run: seq<Sending>, c: nat, fl: Length): nat {
    if run == [] then 0
    else
      var x, before := run[|run| - 1], SinceReliable(run[..|run| - 1], c, fl);
      if x.channel != c then before
      else if x.flags.reliable || (x.size > fl && !x.flags.unreliableFragment) then 0
      else if x.size <= fl && x.flags.unsequenced then before
      else if before >= 0xFFFF then 0
      else before + 1
  }

  /** What the packets leave queued, whatever the numbers `channels` of the reliable commands
      meanwhile. */
  function AllSent(run: seq<Sending>, channels: seq<Channel>, n: nat, fl: Length): (r: Rest)
    requires |channels| == |run| && forall i :: 0 <= i < |run| ==> run[i].channel < n
    ensures |r.unreliable| == n
  {
    if run == [] then Rest(seq(n, _ => 0), 0, 0, [])
    else
      var k := |run| - 1;
      var x, r := run[k], AllSent(run[..k], channels[..k], n, fl);
      SetupPieces(r, channels[k], Chosen(x.flags, x.size > fl, r.unreliable[x.channel]), x.channel, x.size, fl,
                  Pieces(x.size, fl))
  }

  /** In every run the count of a channel is that of the packets since the last reliable one;
      so nobody's packet is made reliable for it before 65535 others were sent unreliably. */
  lemma {:induction false} CountsSinceReliable(run: seq<Sending>, channels: seq<Channel>, n: nat, fl: Length, c: nat)
    requires |channels| == |run| && (forall i :: 0 <= i < |run| ==> run[i].channel < n) && c < n
    ensures AllSent(run, channels, n, fl).unreliable[c] == SinceReliable(run, c, fl) <= 0xFFFF
  {
    hide SetupPieces, Chosen, Pieces;
    if run != [] {
      var k := |run| - 1;
      CountsSinceReliable(run[..k], channels[..k], n, fl, c);
      PacketCounted(AllSent(run[..k], channels[..k], n, fl), channels[k], run[k], fl, c);
    }
  }

  lemma PacketCounted(r: Rest, h: Channel, x: Sending, fl: Length, c: nat)
    requires x.channel < |r.unreliable| && c < |r.unreliable|
    ensures var before: int := r.unreliable[x.channel];
            var kind := Chosen(x.flags, x.size > fl, r.unreliable[x.channel]);
            var s := SetupPieces(r, h, kind, x.channel, x.size, fl, Pieces(x.size, fl));
            s.unreliable[c] ==
              if x.channel != c then r.unreliable[c]
              else if SentReliably(x.flags, x.size > fl, r.unreliable[x.channel]) then 0
              else if x.size <= fl && x.flags.unsequenced then before
              else before + 1
  {
    hide Setup, Pieces, PieceLength, From, Added;
    var kind := Chosen(x.flags, x.size > fl, r.unreliable[x.channel]);
    ChosenExactly(x.flags, x.size > fl, r.unreliable[x.channel]);
    OneAtLeast(x.size, fl);
    if Acknowledged(kind) {
      OnlyRestarted(r, h, kind, x.channel, x.size, fl, Pieces(x.size, fl));
    } else if kind.SendUnsequenced? {
      OneIsEnough(x.size, fl);
      assert SetupPieces(r, h, kind, x.channel, x.size, fl, 0) == r;
      GroupOnly(r, h, x.channel, From(0, fl), PieceLength(x.size, fl, 0));
    } else {
      PiecesAdded(r, h, kind, x.channel, x.size, fl, Pieces(x.size, fl));
      AddedCount(r, SetupPieces(r, h, kind, x.channel, x.size, fl, Pieces(x.size, fl)), h, kind, x.channel, fl,
                 Pieces(x.size, fl));
    }
  }

  lemma GroupOnly(r: Rest, h: Channel, c: nat, offset: nat, length: nat)
    requires c < |r.unreliable|
    ensures Setup(r, h, SendUnsequenced, c, offset, length).unreliable == r.unreliable
  {
  }

  lemma AddedCount(r: Rest, s: Rest, h: Channel, kind: Kind, c: nat, fl: Length, k: nat)
    requires c < |r.unreliable| == |s.unreliable| && k >= 1 && Added(r, s, h, kind, c, fl, k)
    ensures var last: int := r.unreliable[c];
            s.unreliable[c] == last + 1 && s.unreliable == r.unreliable[c := s.unreliable[c]]
  {
  }

  // ----- the order of the numbers

  /** Sent after: in a later group, behind a later reliable command, with a higher count,
      or a later piece of the same packet. */
  predicate Before(a: Other, b: Other) {
    if a.kind.SendUnsequenced? then b.kind.SendUnsequenced? ==> a.n < b.n
    else
      !b.kind.SendUnsequenced? && a.channel == b.channel ==>
        || a.n < b.n
        || (a.n == b.n && a.unreliable < b.unreliable)
        || (a.n == b.n && a.unreliable == b.unreliable && a.offset < b.offset)
  }

  /** The numbers on the wire stand for the unbounded ones, none later than the last. */
  predicate Placed(o: Other, r: Rest, channels: seq<Channel>)
    requires |r.unreliable| == |channels|
  {
    && o.channel < |channels| && !Acknowledged(o.kind)
    && if o.kind.SendUnsequenced? then
         o.group == Wire(o.n) && 1 <= o.n <= r.groups && o.number == 0 && o.unreliable == 0
       else
         && o.number == Wire(o.n) && 1 <= o.unreliable
         && (o.n < channels[o.channel].last
             || (o.n == channels[o.channel].last && o.unreliable <= r.unreliable[o.channel]))
  }

  ghost predicate Ranked(r: Rest, channels: seq<Channel>) {
    && |r.unreliable| == |channels| && r.group == Wire(r.groups)
    && (forall c :: 0 <= c < |channels| ==> channels[c].number == Wire(channels[c].last))
    && (forall i :: 0 <= i < |r.list| ==> Placed(r.list[i], r, channels))
    && (forall i, j :: 0 <= i < j < |r.list| ==> Before(r.list[i], r.list[j]))
  }

  /** What is queued for a packet, piece by piece: all its pieces have the number that
      follows the last one, and begin where they begin in the packet. */
  ghost predicate Added(r: Rest, s: Rest, h: Channel, kind: Kind, c: nat, fl: Length, k: nat)
    requires c < |r.unreliable| == |s.unreliable|
  {
    && |s.list| == |r.list| + k && s.list[..|r.list|] == r.list && s.group == r.group && s.groups == r.groups
    && s.unreliable == r.unreliable[c := s.unreliable[c]]
    && var last: int := r.unreliable[c];
    && s.unreliable[c] == last + (if k == 0 then 0 else 1)
    && forall i :: |r.list| <= i < |s.list| ==>
         var o := s.list[i];
         && o.kind == kind && o.channel == c && o.n == h.last && o.number == h.number
         && o.unreliable == last + 1 && o.offset == From(i - |r.list|, fl)
  }

  lemma {:induction false} PiecesAdded(r: Rest, h: Channel, kind: Kind, c: nat, size: nat, fl: Length, k: nat)
    requires c < |r.unreliable| && r.unreliable[c] < LAST_UNRELIABLE && k <= Pieces(size, fl)
    requires kind.SendUnreliable? || kind.SendUnreliableFragment?
    ensures Added(r, SetupPieces(r, h, kind, c, size, fl, k), h, kind, c, fl, k)
  {
    hide Setup, Added, From, Pieces, PieceLength;
    if k == 0 {
      NothingAdded(r, h, kind, c, fl);
    } else {
      PiecesAdded(r, h, kind, c, size, fl, k - 1);
      var s := SetupPieces(r, h, kind, c, size, fl, k - 1);
      OneMore(r, s, h, kind, c, fl, k - 1, PieceLength(size, fl, k - 1));
    }
  }

  lemma NothingAdded(r: Rest, h: Channel, kind: Kind, c: nat, fl: Length)
    requires c < |r.unreliable|
    ensures Added(r, r, h, kind, c, fl, 0)
  {
  }

  lemma OneMore(r: Rest, s: Rest, h: Channel, kind: Kind, c: nat, fl: Length, k: nat, length: nat)
    requires c < |r.unreliable| == |s.unreliable| && r.unreliable[c] < LAST_UNRELIABLE
    requires kind.SendUnreliable? || kind.SendUnreliableFragment?
    requires Added(r, s, h, kind, c, fl, k)
    ensures Added(r, Setup(s, h, kind, c, From(k, fl), length), h, kind, c, fl, k + 1)
  {
    FirstAtZero(k, fl);
    hide From;
    var t := Setup(s, h, kind, c, From(k, fl), length);
    assert t.list[..|r.list|] == t.list[..|s.list|][..|r.list|];
  }

  lemma FirstAtZero(k: nat, fl: Length)
    ensures From(k, fl) == 0 <==> k == 0
  {
    if k > 0 {
      MulLe(1, fl, k);
    }
  }

  /** A packet that is not acknowledged, whatever the numbers before it: its commands come
      after all others, and the count does not wrap. */
  lemma OthersRanked(r: Rest, channels: seq<Channel>, flags: Flags, cut: bool, c: nat, size: nat, fl: Length)
    requires Ranked(r, channels) && c < |channels| && (cut <==> size > fl)
    requires !Acknowledged(Chosen(flags, cut, r.unreliable[c]))
    ensures var kind := Chosen(flags, cut, r.unreliable[c]);
            Ranked(SetupPieces(r, channels[c], kind, c, size, fl, Pieces(size, fl)), channels)
  {
    hide Wire, Pieces, PieceLength, Ranked, Added, Setup, Chosen, From;
    RankedHas(r, channels);
    var kind, k := Chosen(flags, cut, r.unreliable[c]), Pieces(size, fl);
    var s := SetupPieces(r, channels[c], kind, c, size, fl, k);
    ChosenMeans(flags, cut, r.unreliable[c]);
    if kind.SendUnsequenced? {
      OneIsEnough(size, fl);
      assert SetupPieces(r, channels[c], kind, c, size, fl, 0) == r;
      GroupRanked(r, channels, c, From(0, fl), PieceLength(size, fl, 0));
    } else {
      OneAtLeast(size, fl);
      PiecesAdded(r, channels[c], kind, c, size, fl, k);
      AddedRanked(r, s, channels, kind, c, fl, k);
    }
  }

  lemma RankedHas(r: Rest, channels: seq<Channel>)
    requires Ranked(r, channels)
    ensures |r.unreliable| == |channels|
  {
  }

  lemma ChosenMeans(flags: Flags, cut: bool, count: u16)
    requires !Acknowledged(Chosen(flags, cut, count))
    ensures var kind := Chosen(flags, cut, count);
            if kind.SendUnsequenced? then !cut
            else (kind.SendUnreliable? || kind.SendUnreliableFragment?) && count < LAST_UNRELIABLE
  {
  }

  lemma OneIsEnough(size: nat, fl: Length)
    requires size <= fl
    ensures Pieces(size, fl) == 1
  {
  }

  lemma OneAtLeast(size: nat, fl: Length)
    ensures Pieces(size, fl) >= 1
  {
  }

  /** An unsequenced packet is the next group. */
  lemma GroupRanked(r: Rest, channels: seq<Channel>, c: nat, offset: nat, length: nat)
    requires Ranked(r, channels) && c < |channels|
    ensures c < |r.unreliable| && Ranked(Setup(r, channels[c], SendUnsequenced, c, offset, length), channels)
  {
    GroupNext(r.groups);
    hide Wire;
    var s := Setup(r, channels[c], SendUnsequenced, c, offset, length);
    forall i | 0 <= i < |s.list| ensures Placed(s.list[i], s, channels) {
      assert i < |r.list| ==> s.list[i] == r.list[i] && Placed(r.list[i], r, channels);
    }
  }

  lemma GroupNext(n: nat)
    ensures U16(Wire(n) + 1) == Wire(n + 1)
  {
  }

  lemma AddedRanked(r: Rest, s: Rest, channels: seq<Channel>, kind: Kind, c: nat, fl: Length, k: nat)
    requires Ranked(r, channels) && c < |channels| == |s.unreliable| && k >= 1
    requires Added(r, s, channels[c], kind, c, fl, k) && (kind.SendUnreliable? || kind.SendUnreliableFragment?)
    ensures Ranked(s, channels)
  {
    hide Wire, From;
    forall i | 0 <= i < |s.list| ensures Placed(s.list[i], s, channels) {
      if i < |r.list| {
        assert s.list[i] == s.list[..|r.list|][i] == r.list[i];
        assert Placed(r.list[i], r, channels);
      }
    }
    forall i, j | 0 <= i < j < |s.list| ensures Before(s.list[i], s.list[j]) {
      if i < |r.list| {
        assert s.list[i] == s.list[..|r.list|][i] == r.list[i];
        assert Placed(r.list[i], r, channels);
        if j < |r.list| {
          assert s.list[j] == s.list[..|r.list|][j] == r.list[j];
        }
      } else {
        Rising(i - |r.list|, j - |r.list|, fl);
      }
    }
  }

  lemma Rising(i: nat, j: nat, fl: Length)
    requires i < j
    ensures From(i, fl) < From(j, fl)
  {
    MulLe(i + 1, j, fl);
    assert (i + 1) * fl == i * fl + fl;
  }

  /** Reliable commands start a channel's count again, behind a later number. */
  lemma ReliableRanked(r: Rest, channels: seq<Channel>, c: nat, after: seq<Channel>)
    requires Ranked(r, channels) && c < |channels| == |after|
    requires after[c].last > channels[c].last && after[c].number == Wire(after[c].last)
    requires forall d :: 0 <= d < |channels| && d != c ==> after[d] == channels[d]
    ensures Ranked(r.(unreliable := r.unreliable[c := 0]), after)
  {
    hide Wire, Before;
    forall i | 0 <= i < |r.list| ensures Placed(r.list[i], r.(unreliable := r.unreliable[c := 0]), after) {
      assert Placed(r.list[i], r, channels);
    }
  }

  /** What changes no channel's number keeps the order. */
  predicate SameNumbers(a: seq<Channel>, b: seq<Channel>) {
    |a| == |b| && forall c :: 0 <= c < |a| ==> a[c].number == b[c].number && a[c].last == b[c].last
  }

  lemma NumbersRanked(r: Rest, a: seq<Channel>, b: seq<Channel>)
    requires Ranked(r, a) && SameNumbers(a, b)
    ensures Ranked(r, b)
  {
    hide Wire, Before;
    forall i | 0 <= i < |r.list| ensures Placed(r.list[i], r, b) {
      assert Placed(r.list[i], r, a);
    }
  }

  lemma {:induction false} SendWhileNumbers(p: Queues, limit: nat, fits: nat)
    ensures SameNumbers(p.channels, SendWhile(p, limit, fits).channels)
    decreases fits
  {
    hide Sendable;
    if fits > 0 && Sendable(p, limit) {
      SendableHead(p, limit);
      SendWhileNumbers(SendFirst(p), limit, fits - 1);
    }
  }

  lemma SendableHead(p: Queues, limit: nat)
    requires Sendable(p, limit)
    ensures |p.outgoing| > 0 && p.outgoing[0].channel < |p.channels|
  {
  }
}
