/**
 The ten states of a peer, the host's counters of connected peers, the ranges of what is
 negotiated with each, and which requests to connect a host lets in. The handlers work in
 place on the host's table of peers.
 */
module PeerStates {
  import opened Words
  import opened ReliableSender
  import opened ReliableProtocol

  const MINIMUM_MTU := 576
  const MINIMUM_WINDOW_SIZE := 4096
  const WINDOW_SIZE_SCALE := 65536
  const MINIMUM_CHANNEL_COUNT := 1
  const MAXIMUM_CHANNEL_COUNT := 255

  datatype State =
    | Disconnected | Connecting | AcknowledgingConnect | ConnectionPending | ConnectionSucceeded
    | Connected | DisconnectLater | Disconnecting | AcknowledgingDisconnect | Zombie

  datatype Address = Address(host: u32, port: u16)

  /** How fast the throttle moves, as the ends agreed when they connected. */
  datatype Pace = Pace(interval: u32, acceleration: u32, deceleration: u32)

  datatype Peer = Peer(state: State, address: Address, connectID: u32, incomingBandwidth: u32,
    windowSize: u32, mtu: u32, throttle: u32, throttleLimit: u32, pace: Pace)

  predicate Counts(s: State) {
    s.Connected? || s.DisconnectLater?
  }

  /** How many peers are connected, or connected and limited. */
  function Count(peers: seq<Peer>, limited: bool): nat {
    if peers == [] then 0
    else
      var p := peers[|peers| - 1];
      Count(peers[..|peers| - 1], limited) + if Counts(p.state) && (limited ==> p.incomingBandwidth != 0) then 1 else 0
  }

  function One(p: Peer, limited: bool): nat {
    if Counts(p.state) && (limited ==> p.incomingBandwidth != 0) then 1 else 0
  }

  lemma {:induction false} CountUpdate(peers: seq<Peer>, i: nat, p: Peer, limited: bool)
    requires i < |peers|
    ensures Count(peers[i := p], limited) + One(peers[i], limited) == Count(peers, limited) + One(p, limited)
    ensures One(peers[i], limited) <= Count(peers, limited)
  {
    var n := |peers| - 1;
    if i < n {
      assert peers[i := p][..n] == peers[..n][i := p];
      CountUpdate(peers[..n], i, p, limited);
    } else {
      assert peers[i := p][..n] == peers[..n];
    }
  }

  /** What the sending side relies on. */
  predicate InRange(p: Peer) {
    && MINIMUM_WINDOW_SIZE <= p.windowSize <= MAXIMUM_WINDOW_SIZE
    && MINIMUM_MTU <= p.mtu <= MAXIMUM_MTU
    && p.throttle <= p.throttleLimit <= PACKET_THROTTLE_SCALE
  }

  function Clamp(x: u32, low: u32, high: u32): (r: u32)
    requires low <= high
    ensures low <= r <= high && (low <= x <= high ==> r == x)
  {
    if x < low then low else if x > high then high else x
  }

  /** The window size for a bandwidth. */
  function WindowFor(bandwidth: u32): u32 {
    Clamp(U32(bandwidth / WINDOW_SIZE_SCALE * MINIMUM_WINDOW_SIZE), MINIMUM_WINDOW_SIZE, MAXIMUM_WINDOW_SIZE)
  }

  /** From both ends' bandwidths, where 0 is no limit: the smaller limit decides. */
  function WindowBetween(a: u32, b: u32): u32 {
    if a == 0 && b == 0 then MAXIMUM_WINDOW_SIZE
    else if a == 0 || b == 0 then WindowFor(if a > b then a else b)
    else WindowFor(if a < b then a else b)
  }

  // ----- what becomes of a peer

  const DEFAULT_PACE := Pace(5000, 2, 2)

  /** A peer as new, but for the address it had last. */
  function Idle(address: Address, mtu: u32): Peer {
    Peer(Disconnected, address, 0, 0, MAXIMUM_WINDOW_SIZE, mtu, PACKET_THROTTLE_SCALE, PACKET_THROTTLE_SCALE,
         DEFAULT_PACE)
  }

  /** `event` tells whether the caller takes the event at once. */
  function Notified(s: State, event: bool): State {
    if event then Connected else if s.Connecting? then ConnectionSucceeded else ConnectionPending
  }

  function AfterNotifyDisconnect(p: Peer, event: bool, mtu: u32): Peer {
    if p.state.Disconnected? || p.state.AcknowledgingConnect? || p.state.ConnectionPending? || event then
      Idle(p.address, mtu)
    else p.(state := Zombie)
  }

  function AfterDisconnect(p: Peer, mtu: u32): Peer {
    if p.state.Disconnecting? || p.state.Disconnected? || p.state.AcknowledgingDisconnect? || p.state.Zombie? then p
    else if Counts(p.state) then p.(state := Disconnecting)
    else Idle(p.address, mtu)
  }

  /** `pending` tells whether the peer still has outgoing commands. */
  function AfterDisconnectLater(p: Peer, pending: bool, mtu: u32): Peer {
    if Counts(p.state) && pending then p.(state := DisconnectLater) else AfterDisconnect(p, mtu)
  }

  function AfterHandleDisconnect(p: Peer, acknowledge: bool, mtu: u32): Peer {
    match p.state
    case Disconnected => p
    case Zombie => p
    case AcknowledgingDisconnect => p
    case ConnectionSucceeded => p.(state := Zombie)
    case Disconnecting => p.(state := Zombie)
    case Connecting => p.(state := Zombie)
    case Connected => p.(state := if acknowledge then AcknowledgingDisconnect else Zombie)
    case DisconnectLater => p.(state := if acknowledge then AcknowledgingDisconnect else Zombie)
    case AcknowledgingConnect => Idle(p.address, mtu)
    case ConnectionPending => Idle(p.address, mtu)
  }

  /** Which command an acknowledgement removed from the sent ones. */
  datatype Removed = VerifyConnect | Disconnect | Other

  function AfterAcknowledge(p: Peer, removed: Removed, pending: bool, event: bool, mtu: u32): Peer {
    match p.state
    case AcknowledgingConnect => if removed.VerifyConnect? then p.(state := Notified(p.state, event)) else p
    case Disconnecting => if removed.Disconnect? then AfterNotifyDisconnect(p, event, mtu) else p
    case DisconnectLater => if pending then p else AfterDisconnect(p, mtu)
    case _ => p
  }

  datatype Verify = Verify(channels: u32, pace: Pace, connectID: u32, mtu: u32, windowSize: u32, incomingBandwidth: u32)

  /** It answers our own request. */
  predicate Genuine(p: Peer, v: Verify) {
    MINIMUM_CHANNEL_COUNT <= v.channels <= MAXIMUM_CHANNEL_COUNT && v.pace == p.pace && v.connectID == p.connectID
  }

  function Least(a: u32, b: u32): u32 {
    if a < b then a else b
  }

  function AfterVerifyConnect(p: Peer, v: Verify, event: bool): Peer {
    if !p.state.Connecting? then p
    else if !Genuine(p, v) then p.(state := Zombie)
    else p.(state := Notified(p.state, event), incomingBandwidth := v.incomingBandwidth,
            mtu := Least(Clamp(v.mtu, MINIMUM_MTU, MAXIMUM_MTU), p.mtu),
            windowSize := Least(Clamp(v.windowSize, MINIMUM_WINDOW_SIZE, MAXIMUM_WINDOW_SIZE), p.windowSize))
  }

  function AfterBandwidthLimit(p: Peer, incomingBandwidth: u32, outgoingBandwidth: u32): Peer {
    if !Counts(p.state) then p
    else p.(incomingBandwidth := incomingBandwidth, windowSize := WindowBetween(incomingBandwidth, outgoingBandwidth))
  }

  function AfterDispatch(p: Peer, mtu: u32): Peer {
    match p.state
    case ConnectionPending => p.(state := Connected)
    case ConnectionSucceeded => p.(state := Connected)
    case Zombie => Idle(p.address, mtu)
    case _ => p
  }

  function AfterConnect(p: Peer, address: Address, connectID: u32, outgoingBandwidth: u32, mtu: u32): Peer {
    p.(state := Connecting, address := address, connectID := connectID, mtu := mtu,
       windowSize := WindowBetween(outgoingBandwidth, 0))
  }

  function AfterRequest(p: Peer, r: Request, outgoingBandwidth: u32, mtu: u32): Peer {
    p.(state := AcknowledgingConnect, address := r.address, connectID := r.connectID, pace := r.pace,
       incomingBandwidth := r.incomingBandwidth,
       mtu := Least(Clamp(r.mtu, MINIMUM_MTU, MAXIMUM_MTU), mtu),
       windowSize := WindowBetween(outgoingBandwidth, r.incomingBandwidth))
  }

  function AfterDisconnectNow(p: Peer, mtu: u32): Peer {
    if p.state.Disconnected? then p else Idle(p.address, mtu)
  }

  /** The acknowledgement of a disconnect has gone out. */
  function AfterAcknowledgementSent(p: Peer): Peer {
    p.(state := Zombie)
  }

  /** What was sent unreliably is off the queue. */
  function AfterUnreliableSent(p: Peer, pending: bool, mtu: u32): Peer {
    if p.state.DisconnectLater? && !pending then AfterDisconnect(p, mtu) else p
  }

  // ----- what the application is told

  datatype Report = Silent | ConnectReport | DisconnectReport

  function NotifyDisconnectReport(s: State, event: bool): Report {
    if event && !s.Disconnected? && !s.AcknowledgingConnect? && !s.ConnectionPending? then DisconnectReport else Silent
  }

  function VerifyReport(p: Peer, v: Verify, event: bool): Report {
    if p.state.Connecting? && Genuine(p, v) && event then ConnectReport else Silent
  }

  function AcknowledgeReport(s: State, removed: Removed, event: bool): Report {
    if s.AcknowledgingConnect? && removed.VerifyConnect? && event then ConnectReport
    else if s.Disconnecting? && removed.Disconnect? && event then DisconnectReport
    else Silent
  }

  function DispatchReport(s: State): Report {
    match s
    case ConnectionPending => ConnectReport
    case ConnectionSucceeded => ConnectReport
    case Zombie => DisconnectReport
    case _ => Silent
  }

  /** The round trip compared with the last one decides which way the throttle goes. */
  function AfterThrottle(p: Peer, roundTrip: u32, last: u32, variance: u32): Peer {
    if last <= variance then p.(throttle := p.throttleLimit)
    else if roundTrip <= last then p.(throttle := Least(U32(p.throttle + p.pace.acceleration), p.throttleLimit))
    else if roundTrip > U32(last + 2 * variance) then
      p.(throttle := if p.throttle > p.pace.deceleration then p.throttle - p.pace.deceleration else 0)
    else p
  }

  // ----- who is let in

  /** A request to connect. */
  datatype Request = Request(address: Address, connectID: u32, channels: u32, mtu: u32, incomingBandwidth: u32,
                             pace: Pace)

  predicate Present(p: Peer) {
    !p.state.Disconnected? && !p.state.Connecting?
  }

  predicate Repeats(p: Peer, r: Request) {
    Present(p) && p.address == r.address && p.connectID == r.connectID
  }

  function FromHost(peers: seq<Peer>, host: u32): set<nat> {
    set k: nat | k < |peers| && Present(peers[k]) && peers[k].address.host == host
  }

  predicate Refused(peers: seq<Peer>, r: Request, duplicatePeers: nat) {
    || !(MINIMUM_CHANNEL_COUNT <= r.channels <= MAXIMUM_CHANNEL_COUNT)
    || (forall k :: 0 <= k < |peers| ==> !peers[k].state.Disconnected?)
    || (exists k :: 0 <= k < |peers| && Repeats(peers[k], r))
    || |FromHost(peers, r.address.host)| >= duplicatePeers
  }

  /** The peers of a host among those let in. */
  function GuestsFrom(peers: seq<Peer>, guests: set<nat>, host: u32): set<nat> {
    set k | k in guests && k < |peers| && peers[k].address.host == host
  }

  predicate SameRequest(p: Peer, q: Peer) {
    p.address == q.address && p.connectID == q.connectID
  }

  /** No two peers let in came with the same request, and no more from one host than the
      host allows. */
  ghost predicate Admitted(peers: seq<Peer>, guests: set<nat>, duplicatePeers: nat) {
    && (forall k :: k in guests ==> k < |peers| && Present(peers[k]))
    && (forall j, k :: j in guests && k in guests && SameRequest(peers[j], peers[k]) ==> j == k)
    && (forall host: u32 :: |GuestsFrom(peers, guests, host)| <= duplicatePeers)
  }

  /** Who of those let in is still there when a peer has become `p`. */
  function Staying(guests: set<nat>, i: nat, p: Peer): set<nat> {
    if Present(p) then guests else guests - {i}
  }

  lemma {:induction false} FewerGuests(a: set<nat>, b: set<nat>)
    requires a <= b
    ensures |a| <= |b|
  {
    if a != {} {
      var k :| k in a;
      FewerGuests(a - {k}, b - {k});
    }
  }

  lemma AdmittedStay(peers: seq<Peer>, i: nat, p: Peer, guests: set<nat>, duplicatePeers: nat)
    requires Admitted(peers, guests, duplicatePeers) && i < |peers|
    requires i in guests && Present(p) ==> SameRequest(p, peers[i])
    ensures Admitted(peers[i := p], Staying(guests, i, p), duplicatePeers)
  {
    var after, stay := peers[i := p], Staying(guests, i, p);
    forall host: u32 ensures |GuestsFrom(after, stay, host)| <= duplicatePeers {
      FewerGuests(GuestsFrom(after, stay, host), GuestsFrom(peers, guests, host));
    }
  }

  lemma AdmittedJoin(peers: seq<Peer>, i: nat, p: Peer, guests: set<nat>, r: Request, duplicatePeers: nat)
    requires Admitted(peers, guests, duplicatePeers) && i < |peers| && peers[i].state.Disconnected?
    requires !Refused(peers, r, duplicatePeers) && Present(p) && p.address == r.address && p.connectID == r.connectID
    ensures Admitted(peers[i := p], guests + {i}, duplicatePeers)
  {
    var after := peers[i := p];
    forall j | j in guests ensures !SameRequest(peers[j], p) {
      assert !Repeats(peers[j], r);
    }
    forall host: u32 ensures |GuestsFrom(after, guests + {i}, host)| <= duplicatePeers {
      OneMoreGuest(peers, i, p, guests, duplicatePeers, host);
    }
  }

  lemma OneMoreGuest(peers: seq<Peer>, i: nat, p: Peer, guests: set<nat>, duplicatePeers: nat, host: u32)
    requires Admitted(peers, guests, duplicatePeers) && i < |peers| && i !in guests
    requires |FromHost(peers, p.address.host)| < duplicatePeers
    ensures |GuestsFrom(peers[i := p], guests + {i}, host)| <= duplicatePeers
  {
    hide Present;
    var were, are := GuestsFrom(peers, guests, host), GuestsFrom(peers[i := p], guests + {i}, host);
    if host == p.address.host {
      assert are == were + {i};
      FewerGuests(were, FromHost(peers, host));
    } else {
      assert are == were;
    }
  }

  class Host {
    const peers: array<Peer>
    var connectedPeers: nat
    var bandwidthLimitedPeers: nat
    var outgoingBandwidth: u32
    const mtu: u32
    const duplicatePeers: nat
    ghost var guests: set<nat>

    /** The counters are exact, every peer is in range, and those let in were let in rightly. */
    ghost predicate Valid()
      reads this, peers
    {
      && connectedPeers == Count(peers[..], false)
      && bandwidthLimitedPeers == Count(peers[..], true)
      && MINIMUM_MTU <= mtu <= MAXIMUM_MTU
      && (forall k :: 0 <= k < peers.Length ==> InRange(peers[k]))
      && Admitted(peers[..], guests, duplicatePeers)
    }

    constructor (peerCount: nat, outgoingBandwidth: u32, mtu: u32, duplicatePeers: nat)
      requires MINIMUM_MTU <= mtu <= MAXIMUM_MTU
      ensures Valid() && fresh(peers) && peers.Length == peerCount && this.mtu == mtu
      ensures guests == {} && this.duplicatePeers == duplicatePeers
      ensures forall k :: 0 <= k < peerCount ==> peers[k] == Idle(Address(0, 0), mtu)
    {
      peers := new Peer[peerCount](_ => Idle(Address(0, 0), mtu));
      connectedPeers, bandwidthLimitedPeers := 0, 0;
      this.outgoingBandwidth, this.mtu, this.duplicatePeers, guests := outgoingBandwidth, mtu, duplicatePeers, {};
      new;
      assert forall host: u32 :: GuestsFrom(peers[..], {}, host) == {};
      NoneCounted(peers[..], false);
      NoneCounted(peers[..], true);
    }

    /** The table has one peer changed, and the counters follow. */
    twostate predicate Became(i: nat, p: Peer)
      reads this, peers
    {
      && Valid() && i < peers.Length && peers[..] == old(peers[..])[i := p]
      && guests == Staying(old(guests), i, p)
    }

    method OnConnect(i: nat)
      requires i < peers.Length
      modifies this`connectedPeers, this`bandwidthLimitedPeers
      ensures connectedPeers == old(connectedPeers) + if Counts(peers[i].state) then 0 else 1
      ensures bandwidthLimitedPeers == old(bandwidthLimitedPeers)
                + if Counts(peers[i].state) || peers[i].incomingBandwidth == 0 then 0 else 1
    {
      if !Counts(peers[i].state) {
        if peers[i].incomingBandwidth != 0 {
          bandwidthLimitedPeers := bandwidthLimitedPeers + 1;
        }
        connectedPeers := connectedPeers + 1;
      }
    }

    method OnDisconnect(i: nat)
      requires i < peers.Length
      requires One(peers[i], false) <= connectedPeers && One(peers[i], true) <= bandwidthLimitedPeers
      modifies this`connectedPeers, this`bandwidthLimitedPeers
      ensures connectedPeers == old(connectedPeers) - One(peers[i], false)
      ensures bandwidthLimitedPeers == old(bandwidthLimitedPeers) - One(peers[i], true)
    {
      if Counts(peers[i].state) {
        if peers[i].incomingBandwidth != 0 {
          bandwidthLimitedPeers := bandwidthLimitedPeers - 1;
        }
        connectedPeers := connectedPeers - 1;
      }
    }

    /** Stores a peer whose change the counters have followed or will. */
    method Store(i: nat, p: Peer)
      requires i < peers.Length && Admitted(peers[..], guests, duplicatePeers)
      requires i in guests && Present(p) ==> SameRequest(p, peers[i])
      modifies peers, this`guests
      ensures peers[..] == old(peers[..])[i := p] && guests == Staying(old(guests), i, p)
      ensures Admitted(peers[..], guests, duplicatePeers)
      ensures forall limited ::
                Count(peers[..], limited) + One(old(peers[i]), limited)
                == Count(old(peers[..]), limited) + One(p, limited)
    {
      Recounted(peers[..], i, p);
      AdmittedStay(peers[..], i, p, guests, duplicatePeers);
      ghost var after := peers[..][i := p];
      peers[i] := p;
      guests := Staying(guests, i, p);
      assert peers[..] == after;
    }

    method ChangeState(i: nat, s: State)
      requires Valid() && i < peers.Length
      modifies peers, this`guests, this`connectedPeers, this`bandwidthLimitedPeers
      ensures Became(i, old(peers[i]).(state := s))
    {
      Recounted(peers[..], i, peers[i]);
      if Counts(s) {
        OnConnect(i);
      } else {
        OnDisconnect(i);
      }
      Store(i, peers[i].(state := s));
    }

    method Reset(i: nat)
      requires Valid() && i < peers.Length
      modifies peers, this`guests, this`connectedPeers, this`bandwidthLimitedPeers
      ensures Became(i, Idle(old(peers[i]).address, mtu))
    {
      var p := Idle(peers[i].address, mtu);
      Recounted(peers[..], i, peers[i]);
      OnDisconnect(i);
      Store(i, p);
    }

    method NotifyConnect(i: nat, event: bool) returns (report: Report)
      requires Valid() && i < peers.Length
      modifies peers, this`guests, this`connectedPeers, this`bandwidthLimitedPeers
      ensures Became(i, old(peers[i]).(state := Notified(old(peers[i]).state, event)))
      ensures report == if event then ConnectReport else Silent
    {
      report := Silent;
      if event {
        ChangeState(i, Connected);
        report := ConnectReport;
      } else {
        ChangeState(i, if peers[i].state.Connecting? then ConnectionSucceeded else ConnectionPending);
      }
    }

    method NotifyDisconnect(i: nat, event: bool) returns (report: Report)
      requires Valid() && i < peers.Length
      modifies peers, this`guests, this`connectedPeers, this`bandwidthLimitedPeers
      ensures Became(i, AfterNotifyDisconnect(old(peers[i]), event, mtu))
      ensures report == NotifyDisconnectReport(old(peers[i]).state, event)
    {
      report := Silent;
      var s := peers[i].state;
      if s.Disconnected? || s.AcknowledgingConnect? || s.ConnectionPending? {
        Reset(i);
      } else if event {
        report := DisconnectReport;
        Reset(i);
      } else {
        ChangeState(i, Zombie);
      }
    }

    method Disconnect(i: nat)
      requires Valid() && i < peers.Length
      modifies peers, this`guests, this`connectedPeers, this`bandwidthLimitedPeers
      ensures Became(i, AfterDisconnect(old(peers[i]), mtu))
    {
      var s := peers[i].state;
      if s.Disconnecting? || s.Disconnected? || s.AcknowledgingDisconnect? || s.Zombie? {
        assert peers[..] == old(peers[..])[i := peers[i]];
        return;
      }
      if Counts(s) {
        Recounted(peers[..], i, peers[i]);
        OnDisconnect(i);
        Store(i, peers[i].(state := Disconnecting));
      } else {
        Reset(i);
      }
    }

    method DisconnectWhenSent(i: nat, pending: bool)
      requires Valid() && i < peers.Length
      modifies peers, this`guests, this`connectedPeers, this`bandwidthLimitedPeers
      ensures Became(i, AfterDisconnectLater(old(peers[i]), pending, mtu))
    {
      if Counts(peers[i].state) && pending {
        Recounted(peers[..], i, peers[i]);
        Store(i, peers[i].(state := DisconnectLater));
      } else {
        Disconnect(i);
      }
    }

    method DisconnectNow(i: nat)
      requires Valid() && i < peers.Length
      modifies peers, this`guests, this`connectedPeers, this`bandwidthLimitedPeers
      ensures Became(i, AfterDisconnectNow(old(peers[i]), mtu))
    {
      if peers[i].state.Disconnected? {
        assert peers[..] == old(peers[..])[i := peers[i]];
        return;
      }
      Reset(i);
    }

    method FindFree() returns (slot: nat)
      ensures slot <= peers.Length && (slot < peers.Length ==> peers[slot].state.Disconnected?)
      ensures forall k :: 0 <= k < slot ==> !peers[k].state.Disconnected?
    {
      slot := 0;
      while slot < peers.Length && !peers[slot].state.Disconnected?
        invariant slot <= peers.Length
        invariant forall k :: 0 <= k < slot ==> !peers[k].state.Disconnected?
      {
        slot := slot + 1;
      }
    }

    /** The first free peer, if there is one, starts to connect. */
    method Connect(address: Address, connectID: u32) returns (slot: nat)
      requires Valid()
      modifies peers, this`guests
      ensures forall k :: 0 <= k < slot && k < peers.Length ==> !old(peers[k]).state.Disconnected?
      ensures slot == peers.Length ==> Valid() && peers[..] == old(peers[..])
      ensures slot != peers.Length ==>
                && slot < peers.Length && old(peers[slot]).state.Disconnected?
                && Became(slot, AfterConnect(old(peers[slot]), address, connectID, outgoingBandwidth, mtu))
    {
      slot := FindFree();
      if slot < peers.Length {
        var p := peers[slot].(state := Connecting, address := address, connectID := connectID, mtu := mtu);
        p := p.(windowSize := if outgoingBandwidth == 0 then MAXIMUM_WINDOW_SIZE else WindowFor(outgoingBandwidth));
        Store(slot, p);
      }
    }

    /** The first free peer, unless the request is refused. */
    method SlotFor(r: Request) returns (slot: nat)
      ensures slot == peers.Length <==> Refused(peers[..], r, duplicatePeers)
      ensures slot <= peers.Length && (slot < peers.Length ==> peers[slot].state.Disconnected?)
      ensures slot < peers.Length ==> forall k :: 0 <= k < slot ==> !peers[k].state.Disconnected?
    {
      if r.channels < MINIMUM_CHANNEL_COUNT || r.channels > MAXIMUM_CHANNEL_COUNT {
        return peers.Length;
      }
      slot := peers.Length;
      var duplicates, k := 0, 0;
      ghost var host := r.address.host;
      assert FromHost(peers[..0], host) == {};
      while k < peers.Length
        invariant k <= peers.Length && slot <= peers.Length
        invariant slot < peers.Length ==> slot < k && peers[slot].state.Disconnected?
        invariant forall j :: 0 <= j < k && j < slot ==> !peers[j].state.Disconnected?
        invariant forall j :: 0 <= j < k ==> !Repeats(peers[j], r)
        invariant duplicates == |FromHost(peers[..k], host)|
      {
        var p := peers[k];
        OneFurther(peers[..], k, host);
        assert peers[..][..k] == peers[..k] && peers[..][..k + 1] == peers[..k + 1];
        if p.state.Disconnected? {
          if slot == peers.Length {
            slot := k;
          }
        } else if !p.state.Connecting? && p.address.host == r.address.host {
          if p.address.port == r.address.port && p.connectID == r.connectID {
            assert Repeats(peers[..][k], r);
            return peers.Length;
          }
          duplicates := duplicates + 1;
        }
        k := k + 1;
      }
      assert peers[..k] == peers[..];
      if duplicates >= duplicatePeers {
        return peers.Length;
      }
    }

    /** A request to connect takes the first free peer, unless it is refused. */
    method HandleConnect(r: Request) returns (slot: nat)
      requires Valid()
      modifies peers, this`guests
      ensures Valid()
      ensures slot == peers.Length <==> Refused(old(peers[..]), r, duplicatePeers)
      ensures slot == peers.Length ==> peers[..] == old(peers[..]) && guests == old(guests)
      ensures slot != peers.Length ==>
                && slot < peers.Length && old(peers[slot]).state.Disconnected?
                && (forall k :: 0 <= k < slot ==> !old(peers[k]).state.Disconnected?)
                && guests == old(guests) + {slot}
                && peers[..] == old(peers[..])[slot := AfterRequest(old(peers[slot]), r, outgoingBandwidth, mtu)]
    {
      hide Refused, Admitted;
      slot := SlotFor(r);
      if slot == peers.Length {
        return;
      }
      var p := peers[slot].(state := AcknowledgingConnect, connectID := r.connectID, address := r.address, mtu := mtu);
      p := p.(incomingBandwidth := r.incomingBandwidth, pace := r.pace);
      var theirs := Clamp(r.mtu, MINIMUM_MTU, MAXIMUM_MTU);
      if theirs < p.mtu {
        p := p.(mtu := theirs);
      }
      p := p.(windowSize := WindowBetween(outgoingBandwidth, r.incomingBandwidth));
      Recounted(peers[..], slot, p);
      AdmittedJoin(peers[..], slot, p, guests, r, duplicatePeers);
      ghost var after := peers[..][slot := p];
      peers[slot] := p;
      guests := guests + {slot};
      assert peers[..] == after;
    }

    method HandleVerifyConnect(i: nat, v: Verify, event: bool) returns (report: Report)
      requires Valid() && i < peers.Length
      modifies peers, this`guests, this`connectedPeers, this`bandwidthLimitedPeers
      ensures Became(i, AfterVerifyConnect(old(peers[i]), v, event))
      ensures report == VerifyReport(old(peers[i]), v, event)
    {
      report := Silent;
      if !peers[i].state.Connecting? {
        assert peers[..] == old(peers[..])[i := peers[i]];
        return;
      }
      if !Genuine(peers[i], v) {
        ChangeState(i, Zombie);
        return;
      }
      var p := peers[i];
      p := p.(mtu := Least(Clamp(v.mtu, MINIMUM_MTU, MAXIMUM_MTU), p.mtu));
      p := p.(windowSize := Least(Clamp(v.windowSize, MINIMUM_WINDOW_SIZE, MAXIMUM_WINDOW_SIZE), p.windowSize));
      p := p.(incomingBandwidth := v.incomingBandwidth);
      Recounted(peers[..], i, peers[i]);
      Store(i, p);
      report := NotifyConnect(i, event);
    }

    method HandleDisconnect(i: nat, acknowledge: bool)
      requires Valid() && i < peers.Length
      modifies peers, this`guests, this`connectedPeers, this`bandwidthLimitedPeers
      ensures Became(i, AfterHandleDisconnect(old(peers[i]), acknowledge, mtu))
    {
      var s := peers[i].state;
      if s.Disconnected? || s.Zombie? || s.AcknowledgingDisconnect? {
        assert peers[..] == old(peers[..])[i := peers[i]];
        return;
      }
      if s.ConnectionSucceeded? || s.Disconnecting? || s.Connecting? {
        ChangeState(i, Zombie);
      } else if !Counts(s) {
        Reset(i);
      } else if acknowledge {
        ChangeState(i, AcknowledgingDisconnect);
      } else {
        ChangeState(i, Zombie);
      }
    }

    method HandleAcknowledge(i: nat, removed: Removed, pending: bool, event: bool) returns (report: Report)
      requires Valid() && i < peers.Length
      modifies peers, this`guests, this`connectedPeers, this`bandwidthLimitedPeers
      ensures Became(i, AfterAcknowledge(old(peers[i]), removed, pending, event, mtu))
      ensures report == AcknowledgeReport(old(peers[i]).state, removed, event)
    {
      report := Silent;
      var s := peers[i].state;
      if s.AcknowledgingConnect? && removed.VerifyConnect? {
        report := NotifyConnect(i, event);
      } else if s.Disconnecting? && removed.Disconnect? {
        report := NotifyDisconnect(i, event);
      } else if s.DisconnectLater? && !pending {
        Disconnect(i);
      } else {
        assert peers[..] == old(peers[..])[i := peers[i]];
      }
    }

    /** The acknowledgement of a disconnect goes out. */
    method AcknowledgementSent(i: nat)
      requires Valid() && i < peers.Length
      modifies peers, this`guests, this`connectedPeers, this`bandwidthLimitedPeers
      ensures Became(i, AfterAcknowledgementSent(old(peers[i])))
    {
      ChangeState(i, Zombie);
    }

    /** A peer to be disconnected later is when the last of what it sent unreliably is gone. */
    method UnreliableSent(i: nat, pending: bool)
      requires Valid() && i < peers.Length
      modifies peers, this`guests, this`connectedPeers, this`bandwidthLimitedPeers
      ensures Became(i, AfterUnreliableSent(old(peers[i]), pending, mtu))
    {
      if peers[i].state.DisconnectLater? && !pending {
        Disconnect(i);
      } else {
        assert peers[..] == old(peers[..])[i := peers[i]];
      }
    }

    method HandleBandwidthLimit(i: nat, incomingBandwidth: u32)
      requires Valid() && i < peers.Length
      modifies peers, this`guests, this`bandwidthLimitedPeers
      ensures Became(i, AfterBandwidthLimit(old(peers[i]), incomingBandwidth, outgoingBandwidth))
    {
      if !Counts(peers[i].state) {
        assert peers[..] == old(peers[..])[i := peers[i]];
        return;
      }
      var p := peers[i].(incomingBandwidth := incomingBandwidth,
                         windowSize := WindowBetween(incomingBandwidth, outgoingBandwidth));
      Recounted(peers[..], i, peers[i]);
      assert One(peers[i], true) <= bandwidthLimitedPeers;
      if peers[i].incomingBandwidth != 0 {
        bandwidthLimitedPeers := bandwidthLimitedPeers - 1;
      }
      Store(i, p);
      if incomingBandwidth != 0 {
        bandwidthLimitedPeers := bandwidthLimitedPeers + 1;
      }
    }

    method DispatchIncoming(i: nat) returns (report: Report)
      requires Valid() && i < peers.Length
      modifies peers, this`guests, this`connectedPeers, this`bandwidthLimitedPeers
      ensures Became(i, AfterDispatch(old(peers[i]), mtu))
      ensures report == DispatchReport(old(peers[i]).state)
    {
      report := Silent;
      var s := peers[i].state;
      if s.ConnectionPending? || s.ConnectionSucceeded? {
        ChangeState(i, Connected);
        report := ConnectReport;
      } else if s.Zombie? {
        report := DisconnectReport;
        Reset(i);
      } else {
        assert peers[..] == old(peers[..])[i := peers[i]];
      }
    }

    /** Tells which way the throttle was moved. */
    method Throttle(i: nat, roundTrip: u32, last: u32, variance: u32) returns (way: int)
      requires Valid() && i < peers.Length
      modifies peers, this`guests
      ensures Became(i, AfterThrottle(old(peers[i]), roundTrip, last, variance))
      ensures way == if last <= variance then 0 else if roundTrip <= last then 1
                     else if roundTrip > U32(last + 2 * variance) then -1 else 0
    {
      var p := peers[i];
      if last <= variance {
        p, way := p.(throttle := p.throttleLimit), 0;
      } else if roundTrip <= last {
        p, way := p.(throttle := U32(p.throttle + p.pace.acceleration)), 1;
        if p.throttle > p.throttleLimit {
          p := p.(throttle := p.throttleLimit);
        }
      } else if roundTrip > U32(last + 2 * variance) {
        p, way := p.(throttle := if p.throttle > p.pace.deceleration then p.throttle - p.pace.deceleration else 0), -1;
      } else {
        way := 0;
      }
      Store(i, p);
    }
  }

  /** A peer in range never has more reliable data in transit than the largest window. */
  lemma RangeBoundsTransit(p: Peer)
    requires InRange(p)
    ensures TransitLimit(p.throttle, p.windowSize, p.mtu) <= MAXIMUM_WINDOW_SIZE
  {
    LimitBounded(p.throttle, p.windowSize, p.mtu);
  }

  lemma Recounted(peers: seq<Peer>, i: nat, p: Peer)
    requires i < |peers|
    ensures forall limited ::
              Count(peers[i := p], limited) + One(peers[i], limited) == Count(peers, limited) + One(p, limited)
    ensures forall limited :: One(peers[i], limited) <= Count(peers, limited)
  {
    forall limited: bool
      ensures Count(peers[i := p], limited) + One(peers[i], limited) == Count(peers, limited) + One(p, limited)
      ensures One(peers[i], limited) <= Count(peers, limited)
    {
      CountUpdate(peers, i, p, limited);
    }
  }

  lemma OneFurther(peers: seq<Peer>, k: nat, host: u32)
    requires k < |peers|
    ensures |FromHost(peers[..k + 1], host)|
         == |FromHost(peers[..k], host)| + if Present(peers[k]) && peers[k].address.host == host then 1 else 0
  {
    var few, more := FromHost(peers[..k], host), FromHost(peers[..k + 1], host);
    if Present(peers[k]) && peers[k].address.host == host {
      assert more == few + {k};
    } else {
      assert more == few;
    }
  }

  lemma {:induction false} NoneCounted(peers: seq<Peer>, limited: bool)
    requires forall k :: 0 <= k < |peers| ==> !Counts(peers[k].state)
    ensures Count(peers, limited) == 0
  {
    if peers != [] {
      NoneCounted(peers[..|peers| - 1], limited);
    }
  }
}
