/**
 What two ends settle between them: the window their bandwidths allow, the smaller of their
 datagram sizes, and how the share of unreliable packets follows the round trip.
 */
module Negotiation {
  import opened Words
  import opened PeerStates

  /** A window of `w` bytes is within a bandwidth: 4096 bytes for each whole 65536 of it, but
      never less than 4096, and any window if there is no limit. */
  predicate Affords(bandwidth: u32, w: int) {
    bandwidth == 0 || w <= 4096 || w <= bandwidth / 65536 * 4096
  }

  /** The largest window of 4096 to 65536 bytes that both ends' bandwidths afford, so without
      limits it is 65536. */
  ghost predicate LargestWindow(w: int, a: u32, b: u32) {
    && 4096 <= w <= 65536 && Affords(a, w) && Affords(b, w)
    && (forall x: int :: x <= 65536 && Affords(a, x) && Affords(b, x) ==> x <= w)
  }

  lemma WindowIsLargest(a: u32, b: u32)
    ensures LargestWindow(WindowBetween(a, b), a, b)
  {
    WindowForWithin(a);
    WindowForWithin(b);
    if a < b {
      assert a / 65536 * 4096 <= b / 65536 * 4096;
    } else {
      assert b / 65536 * 4096 <= a / 65536 * 4096;
    }
  }

  /** Who asks knows only its own bandwidth and who is asked both; only a connection has its
      window changed later, and the new bandwidth is taken over with it. */
  lemma WindowsAgreed(p: Peer, address: Address, connectID: u32, r: Request, incoming: u32, outgoing: u32, mtu: u32)
    ensures LargestWindow(AfterConnect(p, address, connectID, outgoing, mtu).windowSize, outgoing, 0)
    ensures LargestWindow(AfterRequest(p, r, outgoing, mtu).windowSize, outgoing, r.incomingBandwidth)
    ensures var q := AfterBandwidthLimit(p, incoming, outgoing);
            if p.state.Connected? || p.state.DisconnectLater? then
              && LargestWindow(q.windowSize, incoming, outgoing)
              && q == p.(incomingBandwidth := incoming, windowSize := q.windowSize)
            else
              q == p
  {
    hide WindowBetween, LargestWindow;
    WindowIsLargest(outgoing, 0);
    WindowIsLargest(outgoing, r.incomingBandwidth);
    WindowIsLargest(incoming, outgoing);
  }

  /** A peer takes over from a request what the other end asks for, and keeps the share of
      unreliable packets it starts with. */
  lemma RequestTaken(p: Peer, r: Request, outgoing: u32, mtu: u32)
    ensures var q := AfterRequest(p, r, outgoing, mtu);
            q == Peer(AcknowledgingConnect, r.address, r.connectID, r.incomingBandwidth, q.windowSize, q.mtu,
                      p.throttle, p.throttleLimit, r.pace)
  {
  }

  lemma WindowForWithin(bandwidth: u32)
    ensures var w := WindowFor(bandwidth);
            && 4096 <= w <= 65536 && (bandwidth != 0 ==> Affords(bandwidth, w))
            && (w < 65536 ==> bandwidth / 65536 * 4096 <= w)
  {
    assert bandwidth / 65536 * 4096 < 0x1_0000_0000;
  }

  /** The largest of 576 to 4096 bytes that neither end's datagrams exceed. */
  predicate LargestCommon(m: int, ours: u32, theirs: u32) {
    && 576 <= m <= 4096 && m <= ours && (m <= theirs || m == 576)
    && (m == ours || m == theirs || (theirs < 576 && m == 576))
  }

  /** Both who asks and who is asked settle on datagrams that suit both, and on a window no
      larger than either's. */
  lemma MtuIsLeast(p: Peer, r: Request, outgoingBandwidth: u32, mtu: u32, v: Verify, event: bool)
    requires 576 <= mtu <= 4096 && InRange(p)
    ensures LargestCommon(AfterRequest(p, r, outgoingBandwidth, mtu).mtu, mtu, r.mtu)
    ensures var q := AfterVerifyConnect(p, v, event);
            if p.state.Connecting? && v.connectID == p.connectID && v.pace == p.pace && 1 <= v.channels <= 255 then
              && LargestCommon(q.mtu, p.mtu, v.mtu)
              && q.windowSize <= p.windowSize && (q.windowSize <= v.windowSize || q.windowSize == 4096)
              && (q.windowSize == p.windowSize || q.windowSize == v.windowSize || v.windowSize < 4096)
              && q.incomingBandwidth == v.incomingBandwidth
            else
              q == p.(state := q.state)
  {
  }

  /** After a round trip no longer than the last the throttle is not lower, exactly if its
      sum with the acceleration fits in 32 bits; it then rises by the acceleration, as far as
      its limit. */
  lemma ShorterRaisesExactly(p: Peer, roundTrip: u32, last: u32, variance: u32)
    requires InRange(p) && last > variance && roundTrip <= last
    ensures var q := AfterThrottle(p, roundTrip, last, variance);
            && q == p.(throttle := q.throttle) && q.throttle <= p.throttleLimit
            && (p.throttle <= q.throttle <==> p.throttle + p.pace.acceleration < 0x1_0000_0000)
            && (p.throttle <= q.throttle ==>
                  || q.throttle == p.throttle + p.pace.acceleration
                  || (q.throttle == p.throttleLimit && q.throttle < p.throttle + p.pace.acceleration))
  {
  }

  /** A throttle of 5 that falls to 4 because the round trip did not grow. */
  lemma HugeAccelerationLowers()
    ensures var p := Idle(Address(0, 0), 1400).(throttle := 5, pace := Pace(5000, 0xFFFF_FFFF, 2));
            InRange(p) && AfterThrottle(p, 10, 20, 1).throttle == 4
  {
  }

  /** A longer round trip never raises the throttle: it falls by the deceleration, as far as
      0, when it exceeds the last by more than twice the variance, and stays otherwise. Where
      the variance is as large as the round trip the throttle goes to its limit. */
  lemma LongerLowers(p: Peer, roundTrip: u32, last: u32, variance: u32)
    requires InRange(p) && (last <= variance || last < roundTrip)
    ensures var q := AfterThrottle(p, roundTrip, last, variance);
            && q == p.(throttle := q.throttle)
            && (last <= variance ==> q.throttle == p.throttleLimit)
            && (last > variance && roundTrip > (last + 2 * variance) % 0x1_0000_0000 ==>
                  && q.throttle <= p.throttle
                  && (q.throttle + p.pace.deceleration == p.throttle
                      || (q.throttle == 0 && p.throttle < p.pace.deceleration)))
            && (last > variance && roundTrip <= (last + 2 * variance) % 0x1_0000_0000 ==> q == p)
  {
  }
}
