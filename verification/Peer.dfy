/**
 A peer's sending operations as the program runs them, in place on the shared queues:
 splitting and numbering a packet, sending what may go, returning what timed out, and
 removing what was acknowledged.
 */
module Peer {
  import opened Words
  import opened ReliableWindows
  import opened WindowBits
  import opened Fragments
  import opened ReliableReceiver
  import opened ReliableSender
  import opened OutgoingPeer
  import opened ReliableProtocol
  import opened OutgoingNumbers
  import opened PacketThrottle
  import opened SendGate

  /** The commands for the first `k` pieces of a packet, queued in order. */
  function QueuePieces(p: Queues, c: nat, size: nat, fl: Length, k: nat): (q: Queues)
    requires c < |p.channels| && k <= Pieces(size, fl)
    ensures |q.channels| == |p.channels|
  {
    if k == 0 then p else Queue(QueuePieces(p, c, size, fl, k - 1), c, PieceLength(size, fl, k - 1))
  }

  /** To its channel, a packet's pieces are numbered on from the last command; to the
      others nothing happens. */
  lemma {:induction false} QueuePiecesView(p: Queues, c: nat, size: nat, fl: Length, k: nat, d: nat)
    requires Ordered(p) && c < |p.channels| && d < |p.channels| && k <= Pieces(size, fl)
    ensures var q := QueuePieces(p, c, size, fl, k);
            && Ordered(q)
            && q.channels[c].last == p.channels[c].last + k
            && View(q, d)
            == if d == c then EnqueuePieces(View(p, c), p.channels[c].last + 1, size, fl, k) else View(p, d)
  {
    hide View, Ordered, Pieces, PieceLength;
    if k > 0 {
      QueuePiecesView(p, c, size, fl, k - 1, d);
      QueueView(QueuePieces(p, c, size, fl, k - 1), c, PieceLength(size, fl, k - 1), d);
    }
  }

  /** A packet's pieces touch their own channel's numbers only. */
  lemma {:induction false} QueuePiecesKeeps(p: Queues, c: nat, size: nat, fl: Length, k: nat)
    requires c < |p.channels| && k <= Pieces(size, fl)
    ensures var q := QueuePieces(p, c, size, fl, k);
            && q.inTransit == p.inTransit
            && q.channels[c].last == p.channels[c].last + k
            && (p.channels[c].number == Wire(p.channels[c].last) ==> q.channels[c].number == Wire(q.channels[c].last))
            && forall d :: 0 <= d < |p.channels| && d != c ==> q.channels[d] == p.channels[d]
  {
    hide Pieces, PieceLength, Wire;
    if k > 0 {
      QueuePiecesKeeps(p, c, size, fl, k - 1);
      WireNext(p.channels[c].last + k - 1);
    }
  }

  lemma ReturnChannels(p: Queues, expired: seq<bool>)
    requires Ordered(p) && |expired| == |p.sent|
    ensures Return(p, expired).channels == p.channels
    ensures Ordered(Return(p, expired)) && Return(p, expired).inTransit <= p.inTransit
  {
    hide Of, Total, Filter;
    FilterTotal(p.sent, expired);
    if |p.channels| > 0 {
      ReturnView(p, expired, 0);
    }
  }

  lemma RemoveChannels(p: Queues, number: u16, c: nat)
    requires c < |p.channels|
    ensures var q := Remove(p, number, c);
            SameNumbers(p.channels, q.channels)
  {
    hide Find, FindAgain, Drop;
  }

  lemma RemoveValid(p: Queues, r: Rest, number: u16, c: nat)
    requires Ordered(p) && Ranked(r, p.channels) && c < |p.channels|
    ensures Ordered(Remove(p, number, c)) && Ranked(r, Remove(p, number, c).channels)
  {
    hide Ordered, Ranked, Remove, View;
    RemoveView(p, number, c, c);
    RemoveChannels(p, number, c);
    NumbersRanked(r, p.channels, Remove(p, number, c).channels);
  }

  class Peer {
    var channels: seq<Channel>
    var sentReliableCommands: seq<Command>
    var outgoingSendReliableCommands: seq<Command>
    var reliableDataInTransit: int
    var outgoingUnreliableSequenceNumbers: seq<u16>
    var outgoingUnsequencedGroup: u16
    var outgoingCommands: seq<Other>
    var packetThrottleCounter: nat
    var groups: nat

    /** The queues are in order, all numbers stand for those sent so far, and the commands of
        a packet that is not acknowledged stand together. */
    ghost predicate Valid()
      reads this
    {
      Ordered(Value()) && Ranked(Rest(), channels) && Together(outgoingCommands)
    }

    constructor (channelCount: nat)
      ensures Valid() && |channels| == channelCount
      ensures forall c :: 0 <= c < channelCount ==> View(Value(), c) == Start(1).sender
      ensures Rest() == OutgoingNumbers.Rest(seq(channelCount, _ => 0), 0, 0, [])
    {
      channels := seq(channelCount, _ => Channel(0, 0, seq(16, _ => 0), {}));
      sentReliableCommands, outgoingSendReliableCommands, reliableDataInTransit := [], [], 0;
      outgoingUnreliableSequenceNumbers := seq(channelCount, _ => 0);
      outgoingUnsequencedGroup, groups, outgoingCommands, packetThrottleCounter := 0, 0, [], 0;
    }

    function Value(): Queues
      reads this
    {
      Queues(channels, sentReliableCommands, outgoingSendReliableCommands, reliableDataInTransit)
    }

    function Rest(): Rest
      reads this
    {
      OutgoingNumbers.Rest(outgoingUnreliableSequenceNumbers, outgoingUnsequencedGroup, groups, outgoingCommands)
    }

    /** Gives a command its numbers and queues it. */
    method SetupOutgoingCommand(kind: Kind, c: nat, offset: nat, length: nat)
      requires c < |channels| == |outgoingUnreliableSequenceNumbers|
      modifies this
      ensures Value() == if Acknowledged(kind) then Queue(old(Value()), c, length) else old(Value())
      ensures Rest() == Setup(old(Rest()), old(channels[c]), kind, c, offset, length)
      ensures packetThrottleCounter == old(packetThrottleCounter)
    {
      var h := channels[c];
      if Acknowledged(kind) {
        h := h.(number := U16(h.number + 1), last := h.last + 1);
        channels := channels[c := h];
        outgoingUnreliableSequenceNumbers := outgoingUnreliableSequenceNumbers[c := 0];
        outgoingSendReliableCommands := outgoingSendReliableCommands + [Command(c, Out(h.number, h.last, 0, length))];
      } else if kind.SendUnsequenced? {
        outgoingUnsequencedGroup := U16(outgoingUnsequencedGroup + 1);
        groups := groups + 1;
        outgoingCommands := outgoingCommands + [Other(kind, c, 0, 0, outgoingUnsequencedGroup, offset, length, groups)];
      } else {
        var u: int := outgoingUnreliableSequenceNumbers[c];
        if offset == 0 {
          u := U16(u + 1);
        }
        outgoingUnreliableSequenceNumbers := outgoingUnreliableSequenceNumbers[c := u];
        outgoingCommands := outgoingCommands + [Other(kind, c, h.number, u, 0, offset, length, h.last)];
      }
    }

    /** Chooses the kind of command, cuts a packet that does not fit into fragments, and
        queues it; a packet that fits goes whole. */
    method Send(c: nat, flags: Flags, connected: bool, size: nat, maximumPacketSize: nat, limit: Length)
      returns (ok: bool)
      requires Valid()
      modifies this
      ensures Valid()
      ensures ok <==>
              && connected && c < |old(channels)| && size <= maximumPacketSize
              && Pieces(size, limit) <= MAXIMUM_FRAGMENT_COUNT
      ensures !ok ==> Value() == old(Value()) && Rest() == old(Rest())
      ensures ok ==>
                var was, h, k := old(Rest()), old(channels[c]), Pieces(size, limit);
                var kind := Chosen(flags, size > limit, was.unreliable[c]);
                && Value() == (if Acknowledged(kind) then QueuePieces(old(Value()), c, size, limit, k)
                               else old(Value()))
                && Rest() == SetupPieces(was, h, kind, c, size, limit, k)
      ensures packetThrottleCounter == old(packetThrottleCounter)
      ensures ok ==>
                var before, k := old(outgoingSendReliableCommands), Pieces(size, limit);
                if SentReliably(flags, size > limit, old(outgoingUnreliableSequenceNumbers)[c]) then
                  && outgoingCommands == old(outgoingCommands)
                  && AddsReliable(before, outgoingSendReliableCommands, c, size, limit, k)
                else
                  && outgoingSendReliableCommands == before
                  && AddsPieces(old(outgoingCommands), outgoingCommands,
                                if size > limit then SendUnreliableFragment
                                else if flags.unsequenced then SendUnsequenced else SendUnreliable,
                                c, size, limit, k)
    {
      if !connected || c >= |channels| || size > maximumPacketSize {
        return false;
      }
      if size > limit && (size + limit - 1) / limit > MAXIMUM_FRAGMENT_COUNT {
        return false;
      }
      hide Ordered, Ranked, Together, Setup, Queue, Pieces, PieceLength, From, Chosen, AddsPieces, AddsReliable;
      ghost var was, rest, h := Value(), Rest(), channels[c];
      RankedLengths(rest, channels);
      var kind := Chosen(flags, size > limit, outgoingUnreliableSequenceNumbers[c]);
      if size > limit {
        QueueFragments(kind, c, size, limit);
      } else {
        SetupOutgoingCommand(kind, c, 0, size);
        OnePiece(was, rest, h, kind, c, size, limit);
      }
      SentValid(was, rest, flags, c, size, limit);
      SentPlainly(was, rest, flags, c, size, limit);
      return true;
    }

    /** Queues a command for each fragment. */
    method QueueFragments(kind: Kind, c: nat, size: nat, limit: Length)
      requires c < |channels| == |outgoingUnreliableSequenceNumbers| && size > limit
      modifies this
      ensures Value() == if Acknowledged(kind) then QueuePieces(old(Value()), c, size, limit, Pieces(size, limit))
                         else old(Value())
      ensures Rest() == SetupPieces(old(Rest()), old(channels[c]), kind, c, size, limit, Pieces(size, limit))
      ensures packetThrottleCounter == old(packetThrottleCounter)
    {
      hide Setup, Queue, Pieces, PieceLength, From;
      ghost var was, rest, h := Value(), Rest(), channels[c];
      var fragments := Split(size, limit);
      var i := 0;
      while i < |fragments|
        invariant i <= |fragments| && |fragments| == Pieces(size, limit)
        invariant forall j :: 0 <= j < |fragments| ==> fragments[j] == (From(j, limit), PieceLength(size, limit, j))
        invariant Value() == if Acknowledged(kind) then QueuePieces(was, c, size, limit, i) else was
        invariant Rest() == SetupPieces(rest, h, kind, c, size, limit, i)
        invariant packetThrottleCounter == old(packetThrottleCounter)
      {
        assert |channels| == |was.channels| == |rest.unreliable|;
        SameSetup(Rest(), channels[c], h, kind, c, fragments[i].0, fragments[i].1);
        SetupOutgoingCommand(kind, c, fragments[i].0, fragments[i].1);
        i := i + 1;
      }
    }

    /** The offsets and lengths of a packet's fragments. */
    static method Split(size: nat, limit: Length) returns (fragments: seq<(nat, nat)>)
      requires size > limit
      ensures |fragments| == Pieces(size, limit)
      ensures forall j :: 0 <= j < |fragments| ==>
                fragments[j] == (From(j, limit), PieceLength(size, limit, j))
    {
      hide From, To, Pieces, PieceLength;
      fragments := [];
      var offset, length: nat := 0, limit;
      FirstPiece(size, limit);
      while offset < size
        invariant offset <= size && |fragments| <= Pieces(size, limit)
        invariant offset == size <==> |fragments| == Pieces(size, limit)
        invariant offset < size ==> offset == From(|fragments|, limit) && length == limit
        invariant forall j :: 0 <= j < |fragments| ==>
                    fragments[j] == (From(j, limit), PieceLength(size, limit, j))
        decreases size - offset
      {
        NextPiece(size, limit, |fragments|);
        if size - offset < length {
          length := size - offset;
        }
        fragments := fragments + [(offset, length)];
        offset := offset + length;
      }
    }

    /** Sends waiting commands in order while the windows, the data in transit and the
        datagram allow; tells whether it stopped because no more fitted. */
    method CheckOutgoingCommands(throttle: nat, windowSize: nat, mtu: nat, fits: nat) returns (continueSending: bool)
      requires Valid()
      modifies this`channels, this`sentReliableCommands, this`outgoingSendReliableCommands, this`reliableDataInTransit
      ensures Valid()
      ensures Value() == SendWhile(old(Value()), TransitLimit(throttle, windowSize, mtu), fits)
      ensures continueSending <==>
              |outgoingSendReliableCommands| > 0 && FirstMayGo(Value(), throttle, windowSize, mtu)
      ensures var was := old(Value());
              |was.outgoing| > 0 && fits > 0 && FirstMayGo(was, throttle, windowSize, mtu) ==>
                var m := was.outgoing[0];
                was.sent + [m.(out := m.out.(attempts := m.out.attempts + 1))] <= sentReliableCommands
    {
      hide Ordered, Ranked, Together, SendFirst, SendWhile, FirstMayGo, Busy, TransitLimit, Sendable;
      SendsFirst(Value(), throttle, windowSize, mtu, fits);
      ghost var was, limit := Value(), TransitLimit(throttle, windowSize, mtu);
      SendWhileNumbers(was, limit, fits);
      var left: nat := fits;
      while |outgoingSendReliableCommands| > 0
        invariant Ordered(Value())
        invariant left <= fits && SendWhile(was, limit, fits) == SendWhile(Value(), limit, left)
        decreases |outgoingSendReliableCommands|
      {
        var m := outgoingSendReliableCommands[0];
        OrderedHead(Value());
        var h, w := channels[m.channel], m.out.number / WINDOW_SIZE;
        TestIsSendable(Value(), throttle, windowSize, mtu);
        if m.out.attempts < 1 && m.out.number % WINDOW_SIZE == 0 &&
           (h.windows[(w + WINDOWS - 1) % WINDOWS] >= WINDOW_SIZE || Busy(h.used, w)) {
          break;
        }
        var window := throttle * windowSize / PACKET_THROTTLE_SCALE;
        if reliableDataInTransit + m.out.length > if window > mtu then window else mtu {
          break;
        }
        SendWhileNext(Value(), limit, left);
        if left == 0 {
          NumbersRanked(Rest(), was.channels, channels);
          return true;
        }
        SendOrdered(Value(), limit);
        SendCommand();
        left := left - 1;
      }
      SendWhileNext(Value(), limit, left);
      NoneSendable(Value(), limit);
      NumbersRanked(Rest(), was.channels, channels);
      return false;
    }

    /** The first waiting command goes out, counted in its window the first time. */
    method SendCommand()
      requires |outgoingSendReliableCommands| > 0 && outgoingSendReliableCommands[0].channel < |channels|
      modifies this`channels, this`sentReliableCommands, this`outgoingSendReliableCommands, this`reliableDataInTransit
      ensures Value() == SendFirst(old(Value()))
      ensures |outgoingSendReliableCommands| == |old(outgoingSendReliableCommands)| - 1
    {
      var m := outgoingSendReliableCommands[0];
      var h, w := channels[m.channel], m.out.number / WINDOW_SIZE;
      if m.out.attempts < 1 {
        channels := channels[m.channel := h.(windows := h.windows[w := h.windows[w] + 1], used := h.used + {w})];
      }
      sentReliableCommands := sentReliableCommands + [m.(out := m.out.(attempts := m.out.attempts + 1))];
      outgoingSendReliableCommands := outgoingSendReliableCommands[1..];
      reliableDataInTransit := reliableDataInTransit + m.out.length;
    }

    /** The throttle's turn for a packet whose first command is at `k`: the counter moves on,
        and if it is past the throttle the commands with this one's numbers are dropped. */
    method ThrottleCommand(k: nat, throttle: nat) returns (dropped: bool)
      requires Valid() && k < |outgoingCommands|
      modifies this`outgoingCommands, this`packetThrottleCounter
      ensures Valid()
      ensures packetThrottleCounter == NextCounter(old(packetThrottleCounter))
      ensures dropped <==> packetThrottleCounter > throttle
      ensures var list := old(outgoingCommands);
              outgoingCommands == if dropped then Cut(list, k, DropEnd(list, k, k + 1)) else list
    {
      hide Ordered, Ranked, Together, DropEnd, Cut;
      packetThrottleCounter := (packetThrottleCounter + THROTTLE_COUNTER) % THROTTLE_SCALE;
      assert packetThrottleCounter == NextCounter(old(packetThrottleCounter));
      dropped := packetThrottleCounter > throttle;
      if dropped {
        CutKeeps(Rest(), channels, k, DropEnd(outgoingCommands, k, k + 1));
        DropCommands(k);
      }
    }

    /** The command at `k` goes, and with it those behind it that have the same numbers. */
    method DropCommands(k: nat)
      requires k < |outgoingCommands|
      modifies this`outgoingCommands
      ensures var list := old(outgoingCommands); outgoingCommands == Cut(list, k, DropEnd(list, k, k + 1))
    {
      ghost var list, e := outgoingCommands, k + 1;
      var number, unreliable := outgoingCommands[k].number, outgoingCommands[k].unreliable;
      outgoingCommands := outgoingCommands[..k] + outgoingCommands[k + 1..];
      while k < |outgoingCommands| && outgoingCommands[k].number == number
            && outgoingCommands[k].unreliable == unreliable
        invariant k < e <= |list| && outgoingCommands == Cut(list, k, e)
        invariant DropEnd(list, k, k + 1) == DropEnd(list, k, e)
        decreases |outgoingCommands|
      {
        assert outgoingCommands[k] == list[e];
        outgoingCommands := outgoingCommands[..k] + outgoingCommands[k + 1..];
        e := e + 1;
      }
      assert e < |list| ==> outgoingCommands[k] == list[e];
    }

    /** Moves the sent commands that timed out, in their order, in front of the waiting ones. */
    method CheckTimeouts(expired: seq<bool>)
      requires Valid() && |expired| == |sentReliableCommands|
      modifies this`sentReliableCommands, this`outgoingSendReliableCommands, this`reliableDataInTransit
      ensures Valid()
      ensures Value() == Return(old(Value()), expired)
    {
      hide Filter, Total, Moved, Return, Ordered, Ranked, Together;
      ghost var was := Value();
      ReturnChannels(was, expired);
      var i, k, at: nat := 0, 0, 0;
      MovedEnds(was, expired);
      while i < |expired|
        invariant i <= |expired| == |was.sent|
        invariant k == |Filter(was.sent[..i], expired[..i], false)| && at == |Filter(was.sent[..i], expired[..i], true)|
        invariant Value() == Moved(was, expired, i)
      {
        MovedNext(was, expired, i);
        var m := sentReliableCommands[k];
        if expired[i] {
          reliableDataInTransit := reliableDataInTransit - m.out.length;
          sentReliableCommands := sentReliableCommands[..k] + sentReliableCommands[k + 1..];
          outgoingSendReliableCommands := outgoingSendReliableCommands[..at] + [m] + outgoingSendReliableCommands[at..];
          at := at + 1;
        } else {
          k := k + 1;
        }
        i := i + 1;
      }
    }

    /** Removes the sent command with this number and channel, wherever it is queued. */
    method RemoveSentReliableCommand(number: u16, c: nat) returns (found: bool)
      requires Valid() && c < |channels|
      modifies this`channels, this`sentReliableCommands, this`outgoingSendReliableCommands, this`reliableDataInTransit
      ensures Valid()
      ensures Value() == Remove(old(Value()), number, c)
      ensures found <==> Value() != old(Value())
    {
      hide Find, FindAgain, Total, View, Ordered, Ranked, Together;
      ghost var was := Value();
      RemoveValid(was, Rest(), number, c);
      var k := 0;
      while k < |sentReliableCommands| && !Is(sentReliableCommands[k], number, c)
        invariant k <= |sentReliableCommands|
        invariant forall i :: 0 <= i < k ==> !Is(sentReliableCommands[i], number, c)
      {
        k := k + 1;
      }
      assert k == Find(sentReliableCommands, number, c);
      var l := |outgoingSendReliableCommands|;
      if k == |sentReliableCommands| {
        l := FindAgainIn(outgoingSendReliableCommands, number, c);
        if l == |outgoingSendReliableCommands| {
          return false;
        }
      }
      var h, w := channels[c], number / WINDOW_SIZE;
      if h.windows[w] > 0 {
        h := h.(windows := h.windows[w := h.windows[w] - 1]);
        if h.windows[w] == 0 {
          h := h.(used := h.used - {w});
        }
        channels := channels[c := h];
      }
      assert channels == was.channels[c := Discount(was.channels[c], w)];
      if k < |sentReliableCommands| {
        reliableDataInTransit := reliableDataInTransit - sentReliableCommands[k].out.length;
        sentReliableCommands := sentReliableCommands[..k] + sentReliableCommands[k + 1..];
        assert |sentReliableCommands| != |was.sent|;
      } else {
        outgoingSendReliableCommands := outgoingSendReliableCommands[..l] + outgoingSendReliableCommands[l + 1..];
        assert |outgoingSendReliableCommands| != |was.outgoing|;
      }
      return true;
    }

    static method FindAgainIn(list: seq<Command>, number: u16, c: nat) returns (l: nat)
      ensures l == FindAgain(list, number, c)
    {
      l := 0;
      while l < |list|
        invariant l <= |list|
        invariant FindAgain(list, number, c) == l + FindAgain(list[l..], number, c)
      {
        if list[l].out.attempts < 1 {
          return |list|;
        }
        if Is(list[l], number, c) {
          return l;
        }
        assert list[l..][1..] == list[l + 1..];
        l := l + 1;
      }
    }
  }

  lemma RankedLengths(r: Rest, channels: seq<Channel>)
    requires Ranked(r, channels)
    ensures |r.unreliable| == |channels|
    ensures forall c :: 0 <= c < |channels| ==> channels[c].number == Wire(channels[c].last)
  {
  }

  /** A reliable command's numbers come from elsewhere. */
  lemma SameSetup(r: Rest, g: Channel, h: Channel, kind: Kind, c: nat, offset: nat, length: nat)
    requires c < |r.unreliable|
    ensures Acknowledged(kind) || g == h ==>
              Setup(r, g, kind, c, offset, length) == Setup(r, h, kind, c, offset, length)
  {
  }

  /** A packet that fits is one piece. */
  lemma OnePiece(p: Queues, r: Rest, h: Channel, kind: Kind, c: nat, size: nat, limit: Length)
    requires c < |p.channels| && c < |r.unreliable| && size <= limit
    ensures Pieces(size, limit) == 1
    ensures QueuePieces(p, c, size, limit, 1) == Queue(p, c, size)
    ensures SetupPieces(r, h, kind, c, size, limit, 1) == Setup(r, h, kind, c, 0, size)
  {
    hide Setup, Queue;
    assert QueuePieces(p, c, size, limit, 0) == p && SetupPieces(r, h, kind, c, size, limit, 0) == r;
    assert PieceLength(size, limit, 0) == size;
  }

  /** The commands a reliable packet adds: one for each piece, with the bytes of that piece. */
  ghost predicate AddsReliable(before: seq<Command>, after: seq<Command>, c: nat, size: nat, fl: Length, k: nat) {
    && |after| == |before| + k && k <= Pieces(size, fl) && after[..|before|] == before
    && forall i :: |before| <= i < |after| ==> Carries(after[i], c, size, fl, i - |before|)
  }

  predicate Carries(m: Command, c: nat, size: nat, fl: Length, j: nat)
    requires j < Pieces(size, fl)
  {
    m.channel == c && m.out.attempts == 0 && m.out.length == PieceLength(size, fl, j)
  }

  lemma {:induction false} PiecesCarried(p: Queues, c: nat, size: nat, fl: Length, k: nat)
    requires c < |p.channels| && k <= Pieces(size, fl)
    ensures AddsReliable(p.outgoing, QueuePieces(p, c, size, fl, k).outgoing, c, size, fl, k)
  {
    hide Pieces, PieceLength;
    if k > 0 {
      PiecesCarried(p, c, size, fl, k - 1);
      var q, t := QueuePieces(p, c, size, fl, k - 1), QueuePieces(p, c, size, fl, k);
      assert t.outgoing[..|p.outgoing|] == t.outgoing[..|q.outgoing|][..|p.outgoing|];
      forall i | |p.outgoing| <= i < |t.outgoing| ensures Carries(t.outgoing[i], c, size, fl, i - |p.outgoing|) {
        assert i < |q.outgoing| ==> t.outgoing[i] == q.outgoing[i];
      }
    }
  }

  /** Which queue a packet's commands go to, and of which kind they are. */
  lemma SentPlainly(p: Queues, r: Rest, flags: Flags, c: nat, size: nat, limit: Length)
    requires c < |p.channels| && c < |r.unreliable|
    ensures var kind, k := Chosen(flags, size > limit, r.unreliable[c]), Pieces(size, limit);
            var q, s := if Acknowledged(kind) then QueuePieces(p, c, size, limit, k) else p,
                        SetupPieces(r, p.channels[c], kind, c, size, limit, k);
            if SentReliably(flags, size > limit, r.unreliable[c]) then
              s.list == r.list && AddsReliable(p.outgoing, q.outgoing, c, size, limit, k)
            else
              && q.outgoing == p.outgoing
              && AddsPieces(r.list, s.list,
                            if size > limit then SendUnreliableFragment
                            else if flags.unsequenced then SendUnsequenced else SendUnreliable, c, size, limit, k)
  {
    hide Setup, Pieces, PieceLength, From, Chosen, AddsPieces, AddsReliable;
    var kind, k := Chosen(flags, size > limit, r.unreliable[c]), Pieces(size, limit);
    ChosenExactly(flags, size > limit, r.unreliable[c]);
    PiecesCarried(p, c, size, limit, k);
    PiecesQueued(r, p.channels[c], kind, c, size, limit, k);
  }

  /** A packet's commands, of whatever kind, leave the queues in order. */
  lemma SentValid(p: Queues, r: Rest, flags: Flags, c: nat, size: nat, limit: Length)
    requires Ordered(p) && Ranked(r, p.channels) && Together(r.list) && c < |p.channels|
    ensures c < |r.unreliable|
    ensures var kind, k := Chosen(flags, size > limit, r.unreliable[c]), Pieces(size, limit);
            var q, s := if Acknowledged(kind) then QueuePieces(p, c, size, limit, k) else p,
                        SetupPieces(r, p.channels[c], kind, c, size, limit, k);
            Ordered(q) && Ranked(s, q.channels) && Together(s.list)
  {
    hide Ordered, Ranked, Together, Setup, Queue, Pieces, PieceLength, From, Chosen;
    RankedLengths(r, p.channels);
    PiecesTogether(r, p.channels, flags, size > limit, c, size, limit);
    var kind, k := Chosen(flags, size > limit, r.unreliable[c]), Pieces(size, limit);
    if Acknowledged(kind) {
      OneAtLeast(size, limit);
      QueuePiecesKeeps(p, c, size, limit, k);
      QueuePiecesView(p, c, size, limit, k, c);
      OnlyRestarted(r, p.channels[c], kind, c, size, limit, k);
      ReliableRanked(r, p.channels, c, QueuePieces(p, c, size, limit, k).channels);
    } else {
      OthersRanked(r, p.channels, flags, size > limit, c, size, limit);
    }
  }

  lemma FirstPiece(size: nat, limit: Length)
    ensures From(0, limit) == 0 && Pieces(size, limit) >= 1
  {
  }

  lemma NextPiece(size: nat, limit: Length, j: nat)
    requires size > limit && j < Pieces(size, limit)
    ensures From(j, limit) < size
    ensures PieceLength(size, limit, j) == if size - From(j, limit) < limit then size - From(j, limit) else limit
    ensures j + 1 < Pieces(size, limit) ==> From(j, limit) + PieceLength(size, limit, j) == From(j + 1, limit) < size
                                            && PieceLength(size, limit, j) == limit
    ensures j + 1 == Pieces(size, limit) ==> From(j, limit) + PieceLength(size, limit, j) == size
  {
    PiecesPartition(size, limit, j);
    assert (j + 1) * limit == j * limit + limit;
    if j + 1 < Pieces(size, limit) {
      PiecesPartition(size, limit, j + 1);
    }
  }

  lemma OrderedHead(p: Queues)
    requires Ordered(p) && |p.outgoing| > 0
    ensures p.outgoing[0].channel < |p.channels|
  {
  }

  /** A first command that may go, and fits, goes. */
  lemma SendsFirst(p: Queues, throttle: nat, windowSize: nat, mtu: nat, fits: nat)
    requires Ordered(p)
    ensures |p.outgoing| > 0 ==> p.outgoing[0].channel < |p.channels|
    ensures |p.outgoing| > 0 && fits > 0 && FirstMayGo(p, throttle, windowSize, mtu) ==>
              var m := p.outgoing[0];
              p.sent + [m.(out := m.out.(attempts := m.out.attempts + 1))]
                <= SendWhile(p, TransitLimit(throttle, windowSize, mtu), fits).sent
  {
    hide Ordered, FirstMayGo, Sendable, TransitLimit, SendWhile;
    if |p.outgoing| > 0 {
      OrderedHead(p);
      SendableExactly(p, throttle, windowSize, mtu);
      if fits > 0 && FirstMayGo(p, throttle, windowSize, mtu) {
        FirstGoes(p, TransitLimit(throttle, windowSize, mtu), fits);
      }
    }
  }

  /** The program's test. */
  lemma TestIsSendable(p: Queues, throttle: nat, windowSize: nat, mtu: nat)
    requires |p.outgoing| > 0 && p.outgoing[0].channel < |p.channels|
    ensures var m, window := p.outgoing[0], throttle * windowSize / PACKET_THROTTLE_SCALE;
            var h, w := p.channels[m.channel], m.out.number / WINDOW_SIZE;
            Sendable(p, TransitLimit(throttle, windowSize, mtu)) <==>
              && !(m.out.attempts < 1 && m.out.number % WINDOW_SIZE == 0 &&
                   (h.windows[(w + WINDOWS - 1) % WINDOWS] >= WINDOW_SIZE || Busy(h.used, w)))
              && p.inTransit + m.out.length <= if window > mtu then window else mtu
    ensures Sendable(p, TransitLimit(throttle, windowSize, mtu)) <==> FirstMayGo(p, throttle, windowSize, mtu)
  {
    hide FirstMayGo, Busy;
    SendableExactly(p, throttle, windowSize, mtu);
  }

  lemma NoneSendable(p: Queues, limit: nat)
    ensures |p.outgoing| == 0 ==> !Sendable(p, limit)
  {
  }

  lemma SendWhileNext(p: Queues, limit: nat, fits: nat)
    ensures SendWhile(p, limit, fits) ==
            if fits == 0 || !Sendable(p, limit) then p else SendWhile(SendFirst(p), limit, fits - 1)
  {
  }

  /** The queues when `i` sent commands have been looked at. */
  ghost function Moved(p: Queues, expired: seq<bool>, i: nat): Queues
    requires i <= |p.sent| == |expired|
  {
    var back := Filter(p.sent[..i], expired[..i], true);
    p.(sent := Filter(p.sent[..i], expired[..i], false) + p.sent[i..], outgoing := back + p.outgoing,
       inTransit := p.inTransit - Total(back))
  }

  lemma MovedEnds(p: Queues, expired: seq<bool>)
    requires |expired| == |p.sent|
    ensures Moved(p, expired, 0) == p && Moved(p, expired, |p.sent|) == Return(p, expired)
    ensures forall flag :: Filter(p.sent[..0], expired[..0], flag) == []
  {
    NoneLeft(0, true);
    assert p.sent[..|p.sent|] == p.sent && expired[..|p.sent|] == expired;
    assert p.sent[0..] == p.sent;
  }

  lemma MovedNext(p: Queues, expired: seq<bool>, i: nat)
    requires i < |p.sent| == |expired|
    ensures var k, at := |Filter(p.sent[..i], expired[..i], false)|, |Filter(p.sent[..i], expired[..i], true)|;
            var q, m := Moved(p, expired, i), p.sent[i];
            && k < |q.sent| && q.sent[k] == m && at <= |q.outgoing|
            && Moved(p, expired, i + 1) ==
               (if expired[i] then
                  q.(sent := q.sent[..k] + q.sent[k + 1..], outgoing := q.outgoing[..at] + [m] + q.outgoing[at..],
                     inTransit := q.inTransit - m.out.length)
                else q)
            && |Filter(p.sent[..i + 1], expired[..i + 1], false)| == (if expired[i] then k else k + 1)
            && |Filter(p.sent[..i + 1], expired[..i + 1], true)| == (if expired[i] then at + 1 else at)
  {
    hide Filter, Total;
    FilterNext(p.sent, expired, i, true);
    FilterNext(p.sent, expired, i, false);
    var m, kept, back := p.sent[i], Filter(p.sent[..i], expired[..i], false), Filter(p.sent[..i], expired[..i], true);
    assert p.sent[i..] == [m] + p.sent[i + 1..];
    MovedParts(kept, back, m, p.sent[i + 1..], p.outgoing);
  }

  /** Where the next sent command stands, and where it goes. */
  lemma MovedParts(kept: seq<Command>, back: seq<Command>, m: Command, rest: seq<Command>, outgoing: seq<Command>)
    ensures var sent, all := kept + ([m] + rest), back + outgoing;
            && sent[|kept|] == m
            && sent[..|kept|] + sent[|kept| + 1..] == kept + rest && (kept + [m]) + rest == sent
            && all[..|back|] + [m] + all[|back|..] == (back + [m]) + outgoing
  {
    var sent, all := kept + ([m] + rest), back + outgoing;
    assert sent[..|kept|] == kept && sent[|kept| + 1..] == rest;
    assert all[..|back|] == back && all[|back|..] == outgoing;
  }

  lemma FilterNext(list: seq<Command>, expired: seq<bool>, i: nat, flag: bool)
    requires i < |list| == |expired|
    ensures Filter(list[..i + 1], expired[..i + 1], flag)
         == Filter(list[..i], expired[..i], flag) + if expired[i] == flag then [list[i]] else []
    ensures Total(Filter(list[..i + 1], expired[..i + 1], flag))
         == Total(Filter(list[..i], expired[..i], flag)) + if expired[i] == flag then list[i].out.length else 0
  {
    assert list[..i + 1][..i] == list[..i] && expired[..i + 1][..i] == expired[..i];
    var f := Filter(list[..i], expired[..i], flag);
    OfConcat(f, [list[i]], 0);
    OfOne(list[i], 0);
    assert f + [] == f;
  }
}
