/**
 A peer with all its channels, in every run: the queues are shared, and yet each channel,
 seen alone, makes a run of its own. So what holds in every run of one channel holds for
 all channels of a peer at once.
 */
module PeerProtocol {
  import opened Words
  import opened ReliableWindows
  import opened ReliableReceiver
  import opened Fragments
  import opened ReceiverInvariant
  import opened ReliableSender
  import opened ReliableProtocol
  import opened OutgoingPeer
  import opened Peer

  /** What belongs to one channel but is not in the shared queues: the packets sent, the
      newest number on the wire, the receiver and the acknowledgements it sent. */
  datatype Line = Line(sent: Sent, newest: nat, receiver: Receiver, acked: set<nat>)

  datatype PeerSystem = PeerSystem(queues: Queues, lines: seq<Line>)

  datatype PeerAction =
    | SendOn(c: nat, packet: seq<byte>)
    | TransmitFirst(throttle: nat, windowSize: nat, mtu: nat)
    | CheckTimeouts(expired: seq<bool>)
    | DeliverOn(c: nat, n: nat, room: bool, blank: seq<byte>)
    | DeliverAckOn(c: nat, a: nat)

  function StartPeer(channelCount: nat, fl: Length): PeerSystem {
    PeerSystem(Queues(seq(channelCount, _ => Channel(0, 0, seq(16, _ => 0), {})), [], [], 0),
               seq(channelCount, _ => Line(Sent([], fl), 0, Receiver(0, [], []), {})))
  }

  predicate Matched(y: PeerSystem) {
    |y.lines| == |y.queues.channels|
  }

  /** One channel of a peer as a system of its own. */
  function Alone(y: PeerSystem, c: nat): System
    requires Matched(y) && c < |y.lines|
  {
    System(y.lines[c].sent, View(y.queues, c), y.lines[c].newest, y.lines[c].receiver, y.lines[c].acked)
  }

  // ----- the steps

  function SendPacketOn(y: PeerSystem, c: nat, packet: seq<byte>, limit: nat): PeerSystem
    requires Matched(y) && c < |y.lines|
  {
    var t := y.lines[c].sent;
    var k := Pieces(|packet|, t.fl);
    if |packet| > limit || k > MAXIMUM_FRAGMENT_COUNT then y
    else PeerSystem(QueuePieces(y.queues, c, |packet|, t.fl, k),
                    y.lines[c := y.lines[c].(sent := t.(packets := t.packets + [packet]))])
  }

  function Transmitted(y: PeerSystem): PeerSystem
    requires Matched(y) && |y.queues.outgoing| > 0 && y.queues.outgoing[0].channel < |y.lines|
  {
    var m := y.queues.outgoing[0];
    var line := y.lines[m.channel];
    PeerSystem(SendFirst(y.queues),
               if m.out.attempts < 1 then y.lines[m.channel := line.(newest := line.newest + 1)] else y.lines)
  }

  ghost predicate Possible(y: PeerSystem, act: PeerAction) {
    && Matched(y)
    && match act
       case SendOn(c, _) => c < |y.lines|
       case TransmitFirst(throttle, windowSize, mtu) =>
         && throttle <= PACKET_THROTTLE_SCALE && windowSize <= MAXIMUM_WINDOW_SIZE && mtu <= MAXIMUM_MTU
         && Sendable(y.queues, TransitLimit(throttle, windowSize, mtu))
       case CheckTimeouts(expired) => |expired| == |y.queues.sent|
       case DeliverOn(c, n, room, blank) => c < |y.lines| && Enabled(Alone(y, c), Deliver(n, room, blank))
       case DeliverAckOn(c, a) => c < |y.lines| && Enabled(Alone(y, c), DeliverAck(a))
  }

  ghost function After(y: PeerSystem, act: PeerAction, limits: Limits): PeerSystem
    requires Possible(y, act)
  {
    match act
    case SendOn(c, packet) => SendPacketOn(y, c, packet, limits.sender)
    case TransmitFirst(_, _, _) => Transmitted(y)
    case CheckTimeouts(expired) => y.(queues := Return(y.queues, expired))
    case DeliverOn(c, n, room, blank) =>
      var z := DeliverCopy(Alone(y, c), n, limits.receiver, room, blank);
      y.(lines := y.lines[c := y.lines[c].(receiver := z.receiver, acked := z.acked)])
    case DeliverAckOn(c, a) => y.(queues := Remove(y.queues, Wire(a), c))
  }

  ghost predicate PeerStep(y: PeerSystem, z: PeerSystem, limits: Limits) {
    exists act: PeerAction :: Possible(y, act) && z == After(y, act, limits)
  }

  ghost predicate PeerRun(run: seq<PeerSystem>, channelCount: nat, fl: Length, limits: Limits) {
    && |run| > 0 && run[0] == StartPeer(channelCount, fl)
    && forall k :: 0 <= k < |run| - 1 ==> PeerStep(run[k], run[k + 1], limits)
  }

  // ----- what every run of the peer keeps

  /** The queues are in order, each channel's last number is its last packet's, and the
      data in transit, over all channels, is within the largest window. */
  ghost predicate PeerGood(y: PeerSystem) {
    && Matched(y) && Ordered(y.queues)
    && y.queues.inTransit <= MAXIMUM_WINDOW_SIZE
    && forall c :: 0 <= c < |y.lines| ==> LastNumberKnown(y, c)
  }

  ghost predicate LastNumberKnown(y: PeerSystem, c: nat)
    requires Matched(y) && c < |y.lines|
  {
    y.queues.channels[c].last == Base(y.lines[c].sent, |y.lines[c].sent.packets|)
  }

  /** To each channel a step of the peer is a step of its own, or nothing. */
  ghost predicate Follows(y: PeerSystem, z: PeerSystem, limits: Limits) {
    && PeerGood(y) && PeerGood(z) && |z.lines| == |y.lines|
    && forall d :: 0 <= d < |y.lines| ==> OwnStep(y, z, limits, d)
  }

  ghost predicate OwnStep(y: PeerSystem, z: PeerSystem, limits: Limits, d: nat)
    requires Matched(y) && Matched(z) && d < |y.lines| == |z.lines|
  {
    Alone(z, d) == Alone(y, d) || Step(Alone(y, d), Alone(z, d), limits)
  }

  lemma StepBy(y: System, act: Action, limits: Limits)
    requires Enabled(y, act)
    ensures Step(y, Next(y, act, limits), limits)
  {
  }

  lemma SendFollows(y: PeerSystem, c: nat, packet: seq<byte>, limits: Limits)
    requires PeerGood(y) && c < |y.lines|
    ensures Follows(y, SendPacketOn(y, c, packet, limits.sender), limits)
  {
    hide View, Ordered, Pieces, Step, Base, QueuePieces, EnqueuePieces;
    var t, z := y.lines[c].sent, SendPacketOn(y, c, packet, limits.sender);
    var k := Pieces(|packet|, t.fl);
    if z != y {
      QueuePiecesKeeps(y.queues, c, |packet|, t.fl, k);
      QueuePiecesView(y.queues, c, |packet|, t.fl, k, c);
      assert LastNumberKnown(y, c);
      LastAfter(t, packet);
      forall d | 0 <= d < |y.lines| ensures OwnStep(y, z, limits, d) && LastNumberKnown(z, d) {
        assert LastNumberKnown(y, d);
        QueuePiecesView(y.queues, c, |packet|, t.fl, k, d);
        if d == c {
          assert Alone(z, c) == SendPacket(Alone(y, c), packet, limits.sender);
          StepBy(Alone(y, c), Send(packet), limits);
        }
      }
    }
  }

  lemma LastAfter(t: Sent, packet: seq<byte>)
    ensures var u := t.(packets := t.packets + [packet]);
            && Base(u, |u.packets|) == Base(t, |t.packets|) + Pieces(|packet|, t.fl)
            && Base(t, |t.packets|) + 1 == First(t, |t.packets|)
  {
    FirstLast(t, packet);
  }

  lemma TransmitFollows(y: PeerSystem, throttle: nat, windowSize: nat, mtu: nat, limits: Limits)
    requires PeerGood(y) && Possible(y, TransmitFirst(throttle, windowSize, mtu))
    ensures Follows(y, Transmitted(y), limits)
  {
    hide View, Ordered, Step, Base, HeldBack, TransitLimit, MaySend, SendHead;
    var z, limit, c := Transmitted(y), TransitLimit(throttle, windowSize, mtu), y.queues.outgoing[0].channel;
    LimitBounded(throttle, windowSize, mtu);
    SendOrdered(y.queues, limit);
    forall d | 0 <= d < |y.lines| ensures OwnStep(y, z, limits, d) && LastNumberKnown(z, d) {
      assert LastNumberKnown(y, d);
      SendView(y.queues, limit, d);
      if d == c {
        HeadOfView(y.queues, limit);
        assert Alone(z, d) == TransmitHead(Alone(y, d));
        StepBy(Alone(y, d), Transmit(throttle, windowSize, mtu), limits);
      }
    }
  }

  /** The first command of all is the first one of its channel. */
  lemma HeadOfView(p: Queues, limit: nat)
    requires Ordered(p) && Sendable(p, limit)
    ensures var c := p.outgoing[0].channel;
            |View(p, c).outgoing| > 0 && View(p, c).outgoing[0] == p.outgoing[0].out
  {
    OfFirst(p.outgoing, p.outgoing[0].channel);
  }

  lemma TimeoutsFollow(y: PeerSystem, expired: seq<bool>, limits: Limits)
    requires PeerGood(y) && |expired| == |y.queues.sent|
    ensures Follows(y, y.(queues := Return(y.queues, expired)), limits)
  {
    hide View, Ordered, Step, Base, Return, Expire;
    var z := y.(queues := Return(y.queues, expired));
    ReturnChannels(y.queues, expired);
    forall d | 0 <= d < |y.lines| ensures OwnStep(y, z, limits, d) && LastNumberKnown(z, d) {
      assert LastNumberKnown(y, d);
      ReturnView(y.queues, expired, d);
      StepBy(Alone(y, d), TimeOut(FlagsOf(y.queues.sent, expired, d)), limits);
    }
  }

  lemma DeliverFollows(y: PeerSystem, c: nat, n: nat, room: bool, blank: seq<byte>, limits: Limits)
    requires PeerGood(y) && Possible(y, DeliverOn(c, n, room, blank))
    ensures Follows(y, After(y, DeliverOn(c, n, room, blank), limits), limits)
  {
    hide View, Ordered, Step, Base, HandleCopy, OwnerOf, First;
    var z := After(y, DeliverOn(c, n, room, blank), limits);
    forall d | 0 <= d < |y.lines| ensures OwnStep(y, z, limits, d) && LastNumberKnown(z, d) {
      assert LastNumberKnown(y, d);
      if d == c {
        assert Alone(z, d) == DeliverCopy(Alone(y, d), n, limits.receiver, room, blank);
        StepBy(Alone(y, d), Deliver(n, room, blank), limits);
      }
    }
  }

  lemma AckFollows(y: PeerSystem, c: nat, a: nat, limits: Limits)
    requires PeerGood(y) && Possible(y, DeliverAckOn(c, a))
    ensures Follows(y, After(y, DeliverAckOn(c, a), limits), limits)
  {
    hide View, Ordered, Step, Base, Remove, Acknowledge, Wire;
    var z := After(y, DeliverAckOn(c, a), limits);
    RemoveChannels(y.queues, Wire(a), c);
    forall d | 0 <= d < |y.lines| ensures OwnStep(y, z, limits, d) && LastNumberKnown(z, d) {
      assert LastNumberKnown(y, d);
      RemoveView(y.queues, Wire(a), c, d);
      if d == c {
        StepBy(Alone(y, d), DeliverAck(a), limits);
      }
    }
    RemoveView(y.queues, Wire(a), c, c);
  }

  /** Every step of the peer is, to each channel, a step of its own or nothing, and keeps
      the queues in order and the data in transit within bounds. */
  lemma StepFollows(y: PeerSystem, act: PeerAction, limits: Limits)
    requires PeerGood(y) && Possible(y, act)
    ensures Follows(y, After(y, act, limits), limits)
  {
    hide PeerGood, Follows, SendPacketOn, Transmitted, Return, Remove, DeliverCopy, Enabled, Sendable;
    match act
    case SendOn(c, packet) => SendFollows(y, c, packet, limits);
    case TransmitFirst(throttle, windowSize, mtu) => TransmitFollows(y, throttle, windowSize, mtu, limits);
    case CheckTimeouts(expired) => TimeoutsFollow(y, expired, limits);
    case DeliverOn(c, n, room, blank) => DeliverFollows(y, c, n, room, blank, limits);
    case DeliverAckOn(c, a) => AckFollows(y, c, a, limits);
  }

  lemma StartPeerGood(channelCount: nat, fl: Length)
    ensures PeerGood(StartPeer(channelCount, fl))
    ensures forall d :: 0 <= d < channelCount ==> Alone(StartPeer(channelCount, fl), d) == Start(fl)
  {
  }

  /** In every run of a peer, the run each channel makes by itself. */
  lemma {:induction false} ChannelRun(run: seq<PeerSystem>, channelCount: nat, fl: Length, limits: Limits, k: nat,
      d: nat)
    returns (own: seq<System>)
    requires PeerRun(run, channelCount, fl, limits) && k < |run| && d < channelCount
    ensures PeerGood(run[k]) && |run[k].lines| == channelCount
    ensures Run(own, fl, limits) && own[|own| - 1] == Alone(run[k], d)
  {
    hide PeerGood, Possible, After, Alone, Step, OwnStep, StartPeer, Start;
    if k == 0 {
      StartPeerGood(channelCount, fl);
      StartMatched(channelCount, fl);
      own := [Alone(run[0], d)];
    } else {
      own := ChannelRun(run, channelCount, fl, limits, k - 1, d);
      assert PeerStep(run[k - 1], run[k - 1 + 1], limits);
      var act: PeerAction :| Possible(run[k - 1], act) && run[k] == After(run[k - 1], act, limits);
      StepFollows(run[k - 1], act, limits);
      GoodMatched(run[k - 1]);
      GoodMatched(run[k]);
      assert OwnStep(run[k - 1], run[k], limits, d);
      own := Longer(run[k - 1], run[k], own, fl, limits, d);
    }
  }

  lemma StartMatched(channelCount: nat, fl: Length)
    ensures |StartPeer(channelCount, fl).lines| == channelCount && Matched(StartPeer(channelCount, fl))
  {
  }

  lemma GoodMatched(y: PeerSystem)
    requires PeerGood(y)
    ensures Matched(y)
  {
  }

  lemma Longer(y: PeerSystem, z: PeerSystem, own: seq<System>, fl: Length, limits: Limits, d: nat)
      returns (longer: seq<System>)
    requires Matched(y) && Matched(z) && d < |y.lines| == |z.lines| && OwnStep(y, z, limits, d)
    requires Run(own, fl, limits) && own[|own| - 1] == Alone(y, d)
    ensures Run(longer, fl, limits) && longer[|longer| - 1] == Alone(z, d)
  {
    hide Alone, Step, Start;
    longer := if Alone(z, d) == Alone(y, d) then own else own + [Alone(z, d)];
  }

  // ----- so, for all channels at once

  /** The data counted as in transit is what the sent commands of all channels carry, and
      never more than the largest window. */
  lemma {:induction false} PeerTransitIsAccounted(run: seq<PeerSystem>, channelCount: nat, fl: Length, limits: Limits,
      k: nat)
    requires PeerRun(run, channelCount, fl, limits) && k < |run|
    ensures PeerGood(run[k])
    ensures run[k].queues.inTransit == Total(run[k].queues.sent) <= MAXIMUM_WINDOW_SIZE
  {
    hide Possible, After, Total, StartPeer, OwnStep;
    if k == 0 {
      StartPeerGood(channelCount, fl);
    } else {
      PeerTransitIsAccounted(run, channelCount, fl, limits, k - 1);
      assert PeerStep(run[k - 1], run[k - 1 + 1], limits);
      var act: PeerAction :| Possible(run[k - 1], act) && run[k] == After(run[k - 1], act, limits);
      StepFollows(run[k - 1], act, limits);
    }
  }

  /** On every channel of a peer, what was dispatched is a prefix of what was sent, and
      the two ends' windows stay together. */
  lemma EveryChannelDelivers(run: seq<PeerSystem>, channelCount: nat, fl: Length, limits: Limits, k: nat, d: nat)
    requires PeerRun(run, channelCount, fl, limits) && k < |run| && d < channelCount
    ensures |run[k].lines| == channelCount && Matched(run[k])
    ensures run[k].lines[d].receiver.dispatched <= run[k].lines[d].sent.packets
    ensures Win(run[k].lines[d].newest) <= Win(Reached(Alone(run[k], d))) + 7
  {
    hide Run, PeerRun, View, Win, Reached, InFlight;
    var own := ChannelRun(run, channelCount, fl, limits, k, d);
    GoodMatched(run[k]);
    LastOf(own, fl, limits);
    ReliableDelivery(own, fl, limits, |own| - 1, |own| - 1);
    WindowsStayTogether(own, fl, limits, |own| - 1);
  }

  lemma LastOf(own: seq<System>, fl: Length, limits: Limits)
    requires Run(own, fl, limits)
    ensures |own| > 0
  {
  }
}
