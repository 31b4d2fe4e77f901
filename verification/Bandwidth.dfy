/**
 Sharing a host's bandwidth among its peers: passes that cap the peers which would get
 more than they can take, until a pass caps none, and then one share for the rest.
 */
module Bandwidth {
  import opened Words

  const SCALE := 32

  /** `epoch` is the time of the last pass that capped the peer. `incomingBandwidth` is
      what the peer can take, and 0 when it told no limit. */
  datatype Peer = Peer(connected: bool, incomingBandwidth: u32, incomingDataTotal: u32, outgoingDataTotal: u32,
    throttle: u32, limit: u32, epoch: u32)

  /** What is left to share: among how many, how much, and the data that wants it. */
  datatype Tally = Tally(remaining: u32, bandwidth: u32, dataTotal: u32)

  function PeerBandwidth(p: Peer, elapsed: u32): u32 {
    U32(p.incomingBandwidth * elapsed) / 1000
  }

  function Share(t: Tally): u32 {
    if t.dataTotal <= t.bandwidth then SCALE else Quotient(U32(t.bandwidth * SCALE), t.dataTotal)
  }

  function Quotient(a: u32, b: u32): (q: u32)
    requires b != 0
    ensures q * b <= a < q * b + b
  {
    var q: nat := a / b;
    assert a == q * b + a % b;
    assert q <= q * b by { MulLe(1, b, q); }
    q
  }

  predicate Open(p: Peer, now: u32) {
    p.connected && p.epoch != now
  }

  /** At this share the peer would be sent more than it can take. */
  predicate Exceeds(p: Peer, share: u32, elapsed: u32, now: u32) {
    Open(p, now) && p.incomingBandwidth != 0 && U32(share * p.outgoingDataTotal) / SCALE > PeerBandwidth(p, elapsed)
  }

  function Min(a: u32, b: u32): u32 {
    if a > b then b else a
  }

  /** The peer is limited to `limit`, and its totals start again. */
  function Limited(p: Peer, limit: u32): Peer {
    p.(limit := limit, throttle := Min(p.throttle, limit), incomingDataTotal := 0, outgoingDataTotal := 0)
  }

  function CapOf(p: Peer, elapsed: u32): u32
    requires p.outgoingDataTotal != 0
  {
    var limit := Quotient(U32(PeerBandwidth(p, elapsed) * SCALE), p.outgoingDataTotal);
    if limit == 0 then 1 else limit
  }

  function Capped(p: Peer, elapsed: u32, now: u32): Peer
    requires p.outgoingDataTotal != 0
  {
    Limited(p, CapOf(p, elapsed)).(epoch := now)
  }

  function Less(t: Tally, b: u32): Tally {
    Tally(U32(t.remaining - 1), U32(t.bandwidth - b), U32(t.dataTotal - b))
  }

  function CountOpen(peers: seq<Peer>, now: u32): nat {
    if peers == [] then 0
    else CountOpen(peers[..|peers| - 1], now) + if Open(peers[|peers| - 1], now) then 1 else 0
  }

  /** One pass, from peer `i` on; the flag tells whether it capped any. */
  function Pass(peers: seq<Peer>, i: nat, share: u32, t: Tally, elapsed: u32, now: u32): (r: (seq<Peer>, Tally, bool))
    requires i <= |peers|
    ensures |r.0| == |peers|
    decreases |peers| - i
  {
    if i == |peers| then (peers, t, false)
    else if Exceeds(peers[i], share, elapsed, now) then
      var r := Pass(peers[i := Capped(peers[i], elapsed, now)], i + 1, share,
                    Less(t, PeerBandwidth(peers[i], elapsed)), elapsed, now);
      (r.0, r.1, true)
    else Pass(peers, i + 1, share, t, elapsed, now)
  }

  lemma {:induction false} CountUpdate(peers: seq<Peer>, i: nat, p: Peer, now: u32)
    requires i < |peers|
    ensures CountOpen(peers[i := p], now) + (if Open(peers[i], now) then 1 else 0)
         == CountOpen(peers, now) + (if Open(p, now) then 1 else 0)
  {
    var n := |peers| - 1;
    if i < n {
      assert peers[i := p][..n] == peers[..n][i := p];
      CountUpdate(peers[..n], i, p, now);
    } else {
      assert peers[i := p][..n] == peers[..n];
    }
  }

  /** A pass closes the peers it caps and no others. */
  lemma {:induction false} PassCloses(peers: seq<Peer>, i: nat, share: u32, t: Tally, elapsed: u32, now: u32)
    requires i <= |peers|
    ensures var r := Pass(peers, i, share, t, elapsed, now);
            CountOpen(r.0, now) <= CountOpen(peers, now) && (r.2 ==> CountOpen(r.0, now) < CountOpen(peers, now))
    decreases |peers| - i
  {
    if i < |peers| {
      if Exceeds(peers[i], share, elapsed, now) {
        CountUpdate(peers, i, Capped(peers[i], elapsed, now), now);
        PassCloses(peers[i := Capped(peers[i], elapsed, now)], i + 1, share,
                   Less(t, PeerBandwidth(peers[i], elapsed)), elapsed, now);
      } else {
        PassCloses(peers, i + 1, share, t, elapsed, now);
      }
    }
  }

  /** Passes until one caps nobody or nobody is left. */
  function Passes(peers: seq<Peer>, t: Tally, needed: bool, elapsed: u32, now: u32): (r: (seq<Peer>, Tally))
    ensures |r.0| == |peers|
    decreases CountOpen(peers, now), needed
  {
    if t.remaining == 0 || !needed then (peers, t)
    else
      var (q, u, again) := Pass(peers, 0, Share(t), t, elapsed, now);
      PassCloses(peers, 0, Share(t), t, elapsed, now);
      Passes(q, u, again, elapsed, now)
  }

  /** The peers not capped all get the share that is left. */
  function ShareRest(peers: seq<Peer>, share: u32, now: u32): (r: seq<Peer>)
    ensures |r| == |peers|
  {
    seq(|peers|, i requires 0 <= i < |peers| => if Open(peers[i], now) then Limited(peers[i], share) else peers[i])
  }

  function Throttled(peers: seq<Peer>, t: Tally, limitedPeers: nat, elapsed: u32, now: u32): (r: seq<Peer>)
    ensures |r| == |peers|
  {
    if t.remaining == 0 then peers
    else
      var (q, u) := Passes(peers, t, limitedPeers > 0, elapsed, now);
      if u.remaining == 0 then q else ShareRest(q, Share(u), now)
  }

  function ConnectedData(peers: seq<Peer>): nat {
    if peers == [] then 0
    else
      var p := peers[|peers| - 1];
      ConnectedData(peers[..|peers| - 1]) + if p.connected then p.outgoingDataTotal else 0
  }

  /** What there is to share at the start. */
  function Opening(peers: seq<Peer>, connectedPeers: u32, outgoingBandwidth: u32, elapsed: u32): Tally {
    if outgoingBandwidth == 0 then Tally(connectedPeers, U32(-1), U32(-1))
    else Tally(connectedPeers, U32(outgoingBandwidth * elapsed) / 1000, U32(ConnectedData(peers)))
  }

  /** The host's side of it, in place on the table of peers. */
  class Host {
    const peers: array<Peer>
    var connectedPeers: u32
    var bandwidthLimitedPeers: nat
    var outgoingBandwidth: u32
    var bandwidthThrottleEpoch: u32

    constructor (table: array<Peer>)
      ensures peers == table
    {
      peers := table;
      connectedPeers, bandwidthLimitedPeers, outgoingBandwidth, bandwidthThrottleEpoch := 0, 0, 0, 0;
    }

    method TotalData() returns (total: u32)
      ensures total == U32(ConnectedData(peers[..]))
    {
      total := 0;
      var i := 0;
      while i < peers.Length
        invariant i <= peers.Length
        invariant total == U32(ConnectedData(peers[..i]))
      {
        assert peers[..i + 1][..i] == peers[..i];
        if peers[i].connected {
          AddModulo(ConnectedData(peers[..i]), peers[i].outgoingDataTotal);
          total := U32(total + peers[i].outgoingDataTotal);
        }
        i := i + 1;
      }
      assert peers[..i] == peers[..];
    }

    method CapPeers(share: u32, t: Tally, elapsed: u32, now: u32) returns (u: Tally, again: bool)
      modifies peers
      ensures (peers[..], u, again) == Pass(old(peers[..]), 0, share, t, elapsed, now)
    {
      u, again := t, false;
      var i := 0;
      ghost var was := peers[..];
      while i < peers.Length
        invariant i <= peers.Length
        invariant var r := Pass(peers[..], i, share, u, elapsed, now);
                  Pass(was, 0, share, t, elapsed, now) == (r.0, r.1, again || r.2)
      {
        var p := peers[i];
        assert peers[..][i] == p;
        if Exceeds(p, share, elapsed, now) {
          ghost var before := peers[..];
          var b := PeerBandwidth(p, elapsed);
          p := p.(limit := Quotient(U32(b * SCALE), p.outgoingDataTotal));
          if p.limit == 0 {
            p := p.(limit := 1);
          }
          if p.throttle > p.limit {
            p := p.(throttle := p.limit);
          }
          p := p.(epoch := now, incomingDataTotal := 0, outgoingDataTotal := 0);
          peers[i] := p;
          assert peers[..] == before[i := Capped(before[i], elapsed, now)];
          again := true;
          u := Tally(U32(u.remaining - 1), U32(u.bandwidth - b), U32(u.dataTotal - b));
        }
        i := i + 1;
      }
    }

    method LimitRest(share: u32, now: u32)
      modifies peers
      ensures peers[..] == ShareRest(old(peers[..]), share, now)
    {
      var i := 0;
      while i < peers.Length
        invariant i <= peers.Length
        invariant forall j :: i <= j < peers.Length ==> peers[j] == old(peers[j])
        invariant forall j :: 0 <= j < i ==>
                    peers[j] == if Open(old(peers[j]), now) then Limited(old(peers[j]), share) else old(peers[j])
      {
        var p := peers[i];
        if p.connected && p.epoch != now {
          p := p.(limit := share);
          if p.throttle > p.limit {
            p := p.(throttle := p.limit);
          }
          peers[i] := p.(incomingDataTotal := 0, outgoingDataTotal := 0);
        }
        i := i + 1;
      }
    }

    /** At most once a second, limits what is sent to each peer. */
    method BandwidthThrottle(now: u32)
      modifies peers, this`bandwidthThrottleEpoch
      ensures var elapsed := U32(now - old(bandwidthThrottleEpoch));
              if elapsed < 1000 then
                peers[..] == old(peers[..]) && bandwidthThrottleEpoch == old(bandwidthThrottleEpoch)
              else
                && bandwidthThrottleEpoch == now
                && peers[..] == Throttled(old(peers[..]),
                                          Opening(old(peers[..]), connectedPeers, outgoingBandwidth, elapsed),
                                          bandwidthLimitedPeers, elapsed, now)
    {
      var elapsed := U32(now - bandwidthThrottleEpoch);
      if elapsed < 1000 {
        return;
      }
      bandwidthThrottleEpoch := now;
      if connectedPeers == 0 {
        return;
      }
      var t := Tally(connectedPeers, U32(-1), U32(-1));
      if outgoingBandwidth != 0 {
        var total := TotalData();
        t := Tally(connectedPeers, U32(outgoingBandwidth * elapsed) / 1000, total);
      }
      ghost var was, opening := peers[..], t;
      var needed := bandwidthLimitedPeers > 0;
      while t.remaining > 0 && needed
        invariant bandwidthThrottleEpoch == now
        invariant Passes(was, opening, bandwidthLimitedPeers > 0, elapsed, now)
               == Passes(peers[..], t, needed, elapsed, now)
        decreases CountOpen(peers[..], now), needed
      {
        PassCloses(peers[..], 0, Share(t), t, elapsed, now);
        t, needed := CapPeers(Share(t), t, elapsed, now);
      }
      if t.remaining > 0 {
        LimitRest(Share(t), now);
      }
    }
  }

  lemma AddModulo(a: nat, b: nat)
    ensures U32(U32(a) + b) == U32(a + b)
  {
    var q, r := a / TWO32, a % TWO32;
    assert a == q * TWO32 + r;
    assert (q * TWO32 + (r + b)) % TWO32 == (r + b) % TWO32;
  }
}
