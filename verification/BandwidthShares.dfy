/**
 What the bandwidth passes guarantee when no 32-bit product overflows: nothing underflows,
 the peers' shares together stay within the bandwidth, and each within what the peer takes.
 */
module BandwidthShares {
  import opened Words
  import opened Bandwidth

  /** What the open peers want to be sent. */
  function OpenData(peers: seq<Peer>, now: u32): nat {
    if peers == [] then 0
    else
      var p := peers[|peers| - 1];
      OpenData(peers[..|peers| - 1], now) + if Open(p, now) then p.outgoingDataTotal else 0
  }

  /** What the peers capped since `p` can take together. */
  function Spent(p: seq<Peer>, q: seq<Peer>, elapsed: u32, now: u32): nat
    requires |p| == |q|
  {
    if p == [] then 0
    else
      var k := |p| - 1;
      Spent(p[..k], q[..k], elapsed, now)
        + if Open(p[k], now) && !Open(q[k], now) then PeerBandwidth(p[k], elapsed) else 0
  }

  /** No product of one peer's numbers overflows. */
  predicate Modest(p: Peer, elapsed: u32) {
    p.incomingBandwidth * elapsed < TWO32 && SCALE * p.outgoingDataTotal < TWO32
  }

  ghost predicate AllModest(peers: seq<Peer>, elapsed: u32) {
    forall k :: 0 <= k < |peers| && peers[k].connected ==> Modest(peers[k], elapsed)
  }

  /** A peer that was capped: it took less than it was offered. */
  predicate WasCapped(p: Peer, q: Peer, elapsed: u32, now: u32) {
    && Open(p, now) && p.incomingBandwidth != 0 && PeerBandwidth(p, elapsed) < p.outgoingDataTotal
    && q == Capped(p, elapsed, now)
  }

  ghost predicate Progress(p: seq<Peer>, q: seq<Peer>, elapsed: u32, now: u32) {
    |p| == |q| && forall k :: 0 <= k < |p| ==> q[k] == p[k] || WasCapped(p[k], q[k], elapsed, now)
  }

  /** The data of the capped peers that stays in the total: what they want beyond what
      they take. */
  function Overcount(p: seq<Peer>, q: seq<Peer>, elapsed: u32, now: u32): nat
    requires |p| == |q|
  {
    if p == [] then 0
    else
      var k := |p| - 1;
      Overcount(p[..k], q[..k], elapsed, now) + if Open(p[k], now) && !Open(q[k], now) then Excess(p[k], elapsed) else 0
  }

  function Excess(p: Peer, elapsed: u32): nat {
    var b := PeerBandwidth(p, elapsed);
    if b < p.outgoingDataTotal then p.outgoingDataTotal - b else 0
  }

  /** The tally is exact: the open peers are counted, what the capped ones take is gone
      from the bandwidth and from the total, and the total has `spare` to begin with. */
  ghost predicate Exact(p: seq<Peer>, q: seq<Peer>, t: Tally, all: nat, spare: nat, elapsed: u32, now: u32) {
    && Progress(p, q, elapsed, now)
    && t.remaining == CountOpen(q, now)
    && t.dataTotal == OpenData(q, now) + Overcount(p, q, elapsed, now) + spare
    && Spent(p, q, elapsed, now) + t.bandwidth == all
    && (t.dataTotal <= t.bandwidth || SCALE * t.bandwidth < TWO32)
  }

  // ----- one peer more

  lemma {:induction false} OpenUpdate(peers: seq<Peer>, i: nat, p: Peer, now: u32)
    requires i < |peers|
    ensures OpenData(peers[i := p], now) + (if Open(peers[i], now) then peers[i].outgoingDataTotal else 0)
         == OpenData(peers, now) + (if Open(p, now) then p.outgoingDataTotal else 0)
    ensures Open(peers[i], now) ==> peers[i].outgoingDataTotal <= OpenData(peers, now) && 1 <= CountOpen(peers, now)
  {
    var n := |peers| - 1;
    if i < n {
      assert peers[i := p][..n] == peers[..n][i := p];
      OpenUpdate(peers[..n], i, p, now);
    } else {
      assert peers[i := p][..n] == peers[..n];
    }
  }

  lemma {:induction false} SpentUpdate(p: seq<Peer>, q: seq<Peer>, i: nat, c: Peer, elapsed: u32, now: u32)
    requires |p| == |q| && i < |p| && Open(p[i], now) && Open(q[i], now) && !Open(c, now)
    ensures Spent(p, q[i := c], elapsed, now) == Spent(p, q, elapsed, now) + PeerBandwidth(p[i], elapsed)
  {
    hide PeerBandwidth, Open;
    var n := |p| - 1;
    if i < n {
      assert q[i := c][..n] == q[..n][i := c];
      SpentUpdate(p[..n], q[..n], i, c, elapsed, now);
    } else {
      assert q[i := c][..n] == q[..n];
    }
  }

  lemma {:induction false} OvercountUpdate(p: seq<Peer>, q: seq<Peer>, i: nat, c: Peer, elapsed: u32, now: u32)
    requires |p| == |q| && i < |p| && Open(p[i], now) && Open(q[i], now) && !Open(c, now)
    ensures Overcount(p, q[i := c], elapsed, now) == Overcount(p, q, elapsed, now) + Excess(p[i], elapsed)
  {
    hide Excess, Open;
    var n := |p| - 1;
    if i < n {
      assert q[i := c][..n] == q[..n][i := c];
      OvercountUpdate(p[..n], q[..n], i, c, elapsed, now);
    } else {
      assert q[i := c][..n] == q[..n];
    }
  }

  lemma CountWithin(peers: seq<Peer>, now: u32)
    ensures CountOpen(peers, now) <= |peers|
  {
    if peers != [] {
      CountWithin(peers[..|peers| - 1], now);
    }
  }

  /** Why no cap takes more than there is: at a share that all open data fits in, the
      capped peer takes less than its part. */
  lemma CapFits(share: u32, data: nat, open: nat, b: nat, bandwidth: nat)
    requires share <= SCALE && data <= open && share * data / SCALE > b && share * open <= SCALE * bandwidth
    ensures b < data && b <= bandwidth && share * (open - data) <= SCALE * (bandwidth - b)
  {
    MulLe(share, SCALE, data);
    assert share * (open - data) == share * open - share * data;
    if open == data {
    }
    MulLe(0, open - data, share);
  }

  lemma CapSums(p: seq<Peer>, q: seq<Peer>, i: nat, elapsed: u32, now: u32)
    requires Progress(p, q, elapsed, now) && i < |q| && Open(q[i], now)
    requires q[i].incomingBandwidth != 0 && PeerBandwidth(q[i], elapsed) < q[i].outgoingDataTotal
    ensures var c, d, b := q[i := Capped(q[i], elapsed, now)], q[i].outgoingDataTotal, PeerBandwidth(q[i], elapsed);
            && Progress(p, c, elapsed, now)
            && d <= OpenData(q, now) && OpenData(c, now) == OpenData(q, now) - d
            && 1 <= CountOpen(q, now) && CountOpen(c, now) == CountOpen(q, now) - 1
            && Spent(p, c, elapsed, now) == Spent(p, q, elapsed, now) + b
            && Overcount(p, c, elapsed, now) == Overcount(p, q, elapsed, now) + (d - b)
  {
    hide CapOf, PeerBandwidth, OpenData, Spent, Overcount, CountOpen;
    var c := Capped(q[i], elapsed, now);
    assert q[i] == p[i];
    OpenUpdate(q, i, c, now);
    SpentUpdate(p, q, i, c, elapsed, now);
    OvercountUpdate(p, q, i, c, elapsed, now);
    CountUpdate(q, i, c, now);
  }

  lemma ExceedsMeans(p: Peer, share: u32, elapsed: u32, now: u32)
    requires Exceeds(p, share, elapsed, now) && Modest(p, elapsed) && share <= SCALE
    ensures Open(p, now) && p.incomingBandwidth != 0 && p.outgoingDataTotal != 0
    ensures share * p.outgoingDataTotal / SCALE > PeerBandwidth(p, elapsed)
  {
    hide PeerBandwidth, U32;
    MulLe(share, SCALE, p.outgoingDataTotal);
    Fits(share * p.outgoingDataTotal);
  }

  lemma Fits(x: nat)
    requires x < TWO32
    ensures U32(x) == x
  {
  }

  /** Capping one peer keeps the tally exact and the share affordable. */
  lemma CapKeeps(p: seq<Peer>, q: seq<Peer>, i: nat, share: u32, t: Tally, all: nat, spare: nat, elapsed: u32, now: u32)
    requires Exact(p, q, t, all, spare, elapsed, now) && AllModest(p, elapsed)
    requires i < |q| && Exceeds(q[i], share, elapsed, now)
    requires share <= SCALE && share * OpenData(q, now) <= SCALE * t.bandwidth
    ensures q[i].outgoingDataTotal != 0
    ensures var c, u := q[i := Capped(q[i], elapsed, now)], Less(t, PeerBandwidth(q[i], elapsed));
            && Exact(p, c, u, all, spare, elapsed, now)
            && share * OpenData(c, now) <= SCALE * u.bandwidth
            && u.remaining == t.remaining - 1
            && (t.dataTotal <= t.bandwidth <==> u.dataTotal <= u.bandwidth)
  {
    hide PeerBandwidth, OpenData, Spent, Overcount, CountOpen, Capped, Exceeds, Modest, Progress;
    OpenIsOriginal(p, q, i, share, elapsed, now);
    ExceedsMeans(q[i], share, elapsed, now);
    OpenUpdate(q, i, q[i], now);
    CapFits(share, q[i].outgoingDataTotal, OpenData(q, now), PeerBandwidth(q[i], elapsed), t.bandwidth);
    CapSums(p, q, i, elapsed, now);
  }

  lemma OpenIsOriginal(p: seq<Peer>, q: seq<Peer>, i: nat, share: u32, elapsed: u32, now: u32)
    requires Progress(p, q, elapsed, now) && AllModest(p, elapsed) && i < |q| && Exceeds(q[i], share, elapsed, now)
    ensures q[i] == p[i] && Modest(q[i], elapsed)
  {
    hide CapOf, PeerBandwidth;
  }

  // ----- passes

  lemma {:induction false} PassKeeps(p: seq<Peer>, q: seq<Peer>, i: nat, share: u32, t: Tally, all: nat, spare: nat,
      elapsed: u32, now: u32)
    requires Exact(p, q, t, all, spare, elapsed, now) && AllModest(p, elapsed) && i <= |q|
    requires share <= SCALE && share * OpenData(q, now) <= SCALE * t.bandwidth
    ensures var r := Pass(q, i, share, t, elapsed, now);
            && Exact(p, r.0, r.1, all, spare, elapsed, now)
            && (!r.2 ==> r.0 == q && r.1 == t && forall k :: i <= k < |q| ==> !Exceeds(q[k], share, elapsed, now))
    decreases |q| - i
  {
    hide Exact, Exceeds, OpenData, Capped, Less, PeerBandwidth;
    if i < |q| {
      if Exceeds(q[i], share, elapsed, now) {
        ExceedsHasData(q[i], share, elapsed, now);
        CapKeeps(p, q, i, share, t, all, spare, elapsed, now);
        PassKeeps(p, q[i := Capped(q[i], elapsed, now)], i + 1, share, Less(t, PeerBandwidth(q[i], elapsed)), all,
                  spare, elapsed, now);
      } else {
        PassKeeps(p, q, i + 1, share, t, all, spare, elapsed, now);
      }
    }
  }

  lemma ExceedsHasData(p: Peer, share: u32, elapsed: u32, now: u32)
    requires Exceeds(p, share, elapsed, now)
    ensures p.outgoingDataTotal != 0
  {
  }

  /** The share is the whole, 32, if all the data fits; else the largest, in 32nds, at which
      it does. */
  lemma ShareFits(t: Tally, open: nat)
    requires open <= t.dataTotal && (t.dataTotal <= t.bandwidth || SCALE * t.bandwidth < TWO32)
    ensures Share(t) <= 32 && Share(t) * open <= 32 * t.bandwidth
    ensures if t.dataTotal <= t.bandwidth then Share(t) == 32 else 32 * t.bandwidth < (Share(t) + 1) * t.dataTotal
  {
    var s := Share(t);
    MulLe(open, t.dataTotal, s);
    if t.dataTotal > t.bandwidth {
      if s > SCALE {
        MulLe(SCALE, s, t.dataTotal);
      }
    }
  }

  lemma {:induction false} PassesKeep(p: seq<Peer>, q: seq<Peer>, t: Tally, needed: bool, all: nat, spare: nat,
      elapsed: u32, now: u32)
    requires Exact(p, q, t, all, spare, elapsed, now) && AllModest(p, elapsed)
    requires needed || forall k :: 0 <= k < |q| ==> !Exceeds(q[k], Share(t), elapsed, now)
    ensures var (r, u) := Passes(q, t, needed, elapsed, now);
            && Exact(p, r, u, all, spare, elapsed, now)
            && (u.remaining == 0 || forall k :: 0 <= k < |r| ==> !Exceeds(r[k], Share(u), elapsed, now))
    decreases CountOpen(q, now), needed
  {
    hide Exceeds, OpenData, Share, Pass, Progress, Spent, Overcount;
    if t.remaining > 0 && needed {
      ShareFits(t, OpenData(q, now));
      PassKeeps(p, q, 0, Share(t), t, all, spare, elapsed, now);
      PassCloses(q, 0, Share(t), t, elapsed, now);
      var (r, u, again) := Pass(q, 0, Share(t), t, elapsed, now);
      PassesKeep(p, r, u, again, all, spare, elapsed, now);
    }
  }

  // ----- how many passes

  /** How many passes there are. */
  function PassCount(peers: seq<Peer>, t: Tally, needed: bool, elapsed: u32, now: u32): nat
    decreases CountOpen(peers, now), needed
  {
    if t.remaining == 0 || !needed then 0
    else
      var (q, u, again) := Pass(peers, 0, Share(t), t, elapsed, now);
      PassCloses(peers, 0, Share(t), t, elapsed, now);
      1 + PassCount(q, u, again, elapsed, now)
  }

  lemma {:induction false} PassRemaining(peers: seq<Peer>, i: nat, share: u32, t: Tally, elapsed: u32, now: u32)
    requires i <= |peers| && t.remaining == CountOpen(peers, now)
    ensures var r := Pass(peers, i, share, t, elapsed, now); r.1.remaining == CountOpen(r.0, now)
    decreases |peers| - i
  {
    hide CountOpen, CapOf, PeerBandwidth;
    if i < |peers| {
      if Exceeds(peers[i], share, elapsed, now) {
        var c := Capped(peers[i], elapsed, now);
        CountUpdate(peers, i, c, now);
        OpenUpdate(peers, i, c, now);
        var u := Less(t, PeerBandwidth(peers[i], elapsed));
        PassRemaining(peers[i := c], i + 1, share, u, elapsed, now);
      } else {
        PassRemaining(peers, i + 1, share, t, elapsed, now);
      }
    }
  }

  /** With the count of connected peers right there are at most that many passes: every
      one caps somebody, or leaves somebody uncapped and is the last. */
  lemma {:induction false} PassesBounded(peers: seq<Peer>, t: Tally, needed: bool, elapsed: u32, now: u32)
    requires t.remaining == CountOpen(peers, now)
    ensures PassCount(peers, t, needed, elapsed, now) <= CountOpen(peers, now)
    decreases CountOpen(peers, now), needed
  {
    hide CountOpen, Pass, Share;
    if t.remaining > 0 && needed {
      var (q, u, again) := Pass(peers, 0, Share(t), t, elapsed, now);
      PassCloses(peers, 0, Share(t), t, elapsed, now);
      PassRemaining(peers, 0, Share(t), t, elapsed, now);
      if again {
        PassesBounded(q, u, again, elapsed, now);
      }
    }
  }

  // ----- what every peer gets

  /** The limit of a capped peer whose bandwidth is too small for its data was raised to 1. */
  predicate Raised(p: Peer, q: Peer, elapsed: u32, now: u32) {
    WasCapped(p, q, elapsed, now) && PeerBandwidth(p, elapsed) * SCALE < p.outgoingDataTotal
  }

  /** What the connected peers would be sent at their limits, the raised ones left out,
      in units of a 32nd. */
  function Granted(p: seq<Peer>, q: seq<Peer>, elapsed: u32, now: u32): nat
    requires |p| == |q|
  {
    if p == [] then 0
    else
      var k := |p| - 1;
      Granted(p[..k], q[..k], elapsed, now) +
      if p[k].connected && !Raised(p[k], q[k], elapsed, now) then q[k].limit * p[k].outgoingDataTotal else 0
  }

  lemma Takes(p: Peer, elapsed: u32)
    requires p.incomingBandwidth * elapsed < TWO32
    ensures PeerBandwidth(p, elapsed) == p.incomingBandwidth * elapsed / 1000
  {
  }

  lemma CapTakes(p: Peer, elapsed: u32, now: u32)
    requires Modest(p, elapsed) && PeerBandwidth(p, elapsed) < p.outgoingDataTotal
    ensures var limit := CapOf(p, elapsed);
            && 1 <= limit <= SCALE
            && (if PeerBandwidth(p, elapsed) * SCALE < p.outgoingDataTotal then limit == 1
                else limit * p.outgoingDataTotal <= SCALE * PeerBandwidth(p, elapsed))
            && SCALE * PeerBandwidth(p, elapsed) < (limit + 1) * p.outgoingDataTotal
  {
    hide PeerBandwidth;
    var b, d := PeerBandwidth(p, elapsed), p.outgoingDataTotal;
    assert U32(b * SCALE) == b * SCALE;
    var limit := Quotient(b * SCALE, d);
    if limit > SCALE {
      MulLe(SCALE, limit, d);
    }
    if limit == 0 {
      assert b * SCALE < d;
    } else {
      MulLe(1, limit, d);
    }
  }

  /** One peer's part of the sum. */
  lemma GrantedOne(p: Peer, q: Peer, share: u32, elapsed: u32, now: u32)
    requires q == p || WasCapped(p, q, elapsed, now)
    requires p.connected ==> Modest(p, elapsed) && Open(p, now)
    ensures var last := if Open(q, now) then Limited(q, share) else q;
            (if p.connected && !Raised(p, last, elapsed, now) then last.limit * p.outgoingDataTotal else 0)
            <= SCALE * (if Open(p, now) && !Open(q, now) then PeerBandwidth(p, elapsed) else 0)
               + share * (if Open(q, now) then q.outgoingDataTotal else 0)
  {
    hide CapOf, PeerBandwidth;
    if p.connected && q != p {
      CapTakes(p, elapsed, now);
    }
  }

  lemma {:induction false} GrantedBounded(p: seq<Peer>, q: seq<Peer>, share: u32, elapsed: u32, now: u32)
    requires Progress(p, q, elapsed, now) && AllModest(p, elapsed)
    requires forall k :: 0 <= k < |p| && p[k].connected ==> Open(p[k], now)
    ensures Granted(p, ShareRest(q, share, now), elapsed, now)
         <= SCALE * Spent(p, q, elapsed, now) + share * OpenData(q, now)
  {
    hide Raised, PeerBandwidth, Open, Limited, WasCapped;
    if p != [] {
      var k := |p| - 1;
      GrantedBounded(p[..k], q[..k], share, elapsed, now);
      assert ShareRest(q, share, now)[..k] == ShareRest(q[..k], share, now);
      GrantedOne(p[k], q[k], share, elapsed, now);
      Distributes(share, OpenData(q[..k], now), if Open(q[k], now) then q[k].outgoingDataTotal else 0);
    }
  }

  lemma Distributes(a: nat, b: nat, c: nat)
    ensures a * (b + c) == a * b + a * c
  {
  }

  lemma AllClosed(q: seq<Peer>, share: u32, now: u32)
    requires CountOpen(q, now) == 0
    ensures ShareRest(q, share, now) == q && OpenData(q, now) == 0
  {
    if q != [] {
      var k := |q| - 1;
      AllClosed(q[..k], share, now);
      assert ShareRest(q, share, now)[..k] == ShareRest(q[..k], share, now);
    }
  }

  /** A peer's part, once the passes are over: the common share, in 32nds of its data, if it
      can take that in the interval; else the largest share it can take, but at least 1. Its
      throttle stays if it is within the limit. */
  ghost predicate Fair(p: Peer, q: Peer, share: u32, elapsed: u32) {
    var takes, data := p.incomingBandwidth * elapsed / 1000, p.outgoingDataTotal;
    && q.incomingDataTotal == q.outgoingDataTotal == 0
    && q.limit <= 32 && q.throttle == (if p.throttle <= q.limit then p.throttle else q.limit)
    && (|| (q.limit == share && (p.incomingBandwidth == 0 || share * data / 32 <= takes))
        || (p.incomingBandwidth != 0 && q.limit >= 1 && (q.limit == 1 || q.limit * data <= 32 * takes)
            && 32 * takes < (q.limit + 1) * data))
  }

  ghost predicate AllFair(p: seq<Peer>, q: seq<Peer>, share: u32, elapsed: u32) {
    |p| == |q| && forall k :: 0 <= k < |p| && p[k].connected ==> Fair(p[k], q[k], share, elapsed)
  }

  lemma CappedFair(p: Peer, share: u32, elapsed: u32, now: u32)
    requires Modest(p, elapsed) && PeerBandwidth(p, elapsed) < p.outgoingDataTotal && p.incomingBandwidth != 0
    ensures Fair(p, Capped(p, elapsed, now), share, elapsed)
  {
    hide CapOf, PeerBandwidth;
    Takes(p, elapsed);
    CapTakes(p, elapsed, now);
  }

  lemma UncappedFair(p: Peer, share: u32, elapsed: u32, now: u32)
    requires Modest(p, elapsed) && Open(p, now) && share <= SCALE && !Exceeds(p, share, elapsed, now)
    ensures Fair(p, Limited(p, share), share, elapsed)
  {
    hide PeerBandwidth;
    Takes(p, elapsed);
    MulLe(share, SCALE, p.outgoingDataTotal);
    Fits(share * p.outgoingDataTotal);
  }

  lemma RestFair(p: seq<Peer>, q: seq<Peer>, t: Tally, elapsed: u32, now: u32)
    requires Progress(p, q, elapsed, now) && AllModest(p, elapsed) && Share(t) <= SCALE
    requires forall k :: 0 <= k < |p| && p[k].connected ==> Open(p[k], now)
    requires forall k :: 0 <= k < |q| ==> !Exceeds(q[k], Share(t), elapsed, now)
    ensures AllFair(p, ShareRest(q, Share(t), now), Share(t), elapsed)
  {
    hide CapOf, PeerBandwidth, Share, Fair, Exceeds, Limited, Modest;
    forall k | 0 <= k < |p| && p[k].connected
      ensures Fair(p[k], ShareRest(q, Share(t), now)[k], Share(t), elapsed)
    {
      if q[k] == p[k] {
        UncappedFair(p[k], Share(t), elapsed, now);
      } else {
        CappedFair(p[k], Share(t), elapsed, now);
      }
    }
  }

  /** The guarantee, for a host whose counters of connected and of limited peers are right,
      in a round that has not started, if nothing overflows. */
  lemma Shared(p: seq<Peer>, t: Tally, limitedPeers: nat, elapsed: u32, now: u32)
    requires forall k :: 0 <= k < |p| && p[k].connected ==> Open(p[k], now)
    requires t.remaining == CountOpen(p, now)
    requires limitedPeers > 0 || forall k :: 0 <= k < |p| && p[k].connected ==> p[k].incomingBandwidth == 0
    requires AllModest(p, elapsed) && OpenData(p, now) <= t.dataTotal
    requires t.dataTotal <= t.bandwidth || SCALE * t.bandwidth < TWO32
    ensures var q := Throttled(p, t, limitedPeers, elapsed, now);
            && Granted(p, q, elapsed, now) <= SCALE * t.bandwidth
            && AllFair(p, q, Share(Passes(p, t, limitedPeers > 0, elapsed, now).1), elapsed)
  {
    hide Share, Passes, Granted, Fair, PeerBandwidth;
    NothingSpent(p, elapsed, now);
    if t.remaining == 0 {
      NoneConnected(p, now);
      NothingGranted(p, elapsed, now);
    } else {
      PassesKeep(p, p, t, limitedPeers > 0, t.bandwidth, t.dataTotal - OpenData(p, now), elapsed, now);
      var (q, u) := Passes(p, t, limitedPeers > 0, elapsed, now);
      ShareFits(u, OpenData(q, now));
      GrantedBounded(p, q, Share(u), elapsed, now);
      if u.remaining == 0 {
        AllClosed(q, Share(u), now);
        ClosedDoNotExceed(q, Share(u), elapsed, now);
      }
      RestFair(p, q, u, elapsed, now);
    }
  }

  lemma {:induction false} NothingSpent(p: seq<Peer>, elapsed: u32, now: u32)
    ensures Spent(p, p, elapsed, now) == 0 && Overcount(p, p, elapsed, now) == 0
  {
    if p != [] {
      NothingSpent(p[..|p| - 1], elapsed, now);
    }
  }

  lemma {:induction false} NoneConnected(p: seq<Peer>, now: u32)
    requires CountOpen(p, now) == 0
    ensures forall k :: 0 <= k < |p| ==> !Open(p[k], now)
  {
    if p != [] {
      NoneConnected(p[..|p| - 1], now);
      assert forall k :: 0 <= k < |p| - 1 ==> p[..|p| - 1][k] == p[k];
    }
  }

  lemma {:induction false} NothingGranted(p: seq<Peer>, elapsed: u32, now: u32)
    requires forall k :: 0 <= k < |p| ==> !p[k].connected
    ensures Granted(p, p, elapsed, now) == 0
  {
    if p != [] {
      NothingGranted(p[..|p| - 1], elapsed, now);
    }
  }

  lemma ClosedDoNotExceed(q: seq<Peer>, share: u32, elapsed: u32, now: u32)
    requires CountOpen(q, now) == 0
    ensures forall k :: 0 <= k < |q| ==> !Exceeds(q[k], share, elapsed, now)
  {
    NoneConnected(q, now);
  }

  lemma {:induction false} AllOpenData(p: seq<Peer>, now: u32)
    requires forall k :: 0 <= k < |p| && p[k].connected ==> Open(p[k], now)
    ensures OpenData(p, now) == ConnectedData(p)
  {
    if p != [] {
      AllOpenData(p[..|p| - 1], now);
    }
  }

  lemma MinusOne()
    ensures U32(-1) == TWO32 - 1
  {
  }

  /** For the host itself: with a limit on what it sends and no 32-bit overflow, what its
      peers may be sent in the interval is within that limit. */
  lemma HostShared(p: seq<Peer>, connectedPeers: u32, limitedPeers: nat, outgoingBandwidth: u32, elapsed: u32, now: u32)
    requires forall k :: 0 <= k < |p| && p[k].connected ==> Open(p[k], now)
    requires connectedPeers == CountOpen(p, now)
    requires limitedPeers > 0 || forall k :: 0 <= k < |p| && p[k].connected ==> p[k].incomingBandwidth == 0
    requires AllModest(p, elapsed) && ConnectedData(p) < TWO32
    requires outgoingBandwidth * elapsed < TWO32
    requires ConnectedData(p) * 1000 <= outgoingBandwidth * elapsed
             || SCALE * (outgoingBandwidth * elapsed / 1000) < TWO32
    ensures var t := Opening(p, connectedPeers, outgoingBandwidth, elapsed);
            var q := Throttled(p, t, limitedPeers, elapsed, now);
            && (outgoingBandwidth != 0 ==> Granted(p, q, elapsed, now) <= 32 * (outgoingBandwidth * elapsed / 1000))
            && AllFair(p, q, Share(Passes(p, t, limitedPeers > 0, elapsed, now).1), elapsed)
  {
    hide Throttled, Granted, Fair, AllFair, Passes, Share, U32, OpenData, ConnectedData, CountOpen, AllModest, Open;
    AllOpenData(p, now);
    Fits(outgoingBandwidth * elapsed);
    Fits(ConnectedData(p));
    MinusOne();
    Shared(p, Opening(p, connectedPeers, outgoingBandwidth, elapsed), limitedPeers, elapsed, now);
  }

  // ----- the total that is left

  lemma {:induction false} OvercountZero(p: seq<Peer>, q: seq<Peer>, elapsed: u32, now: u32)
    requires Progress(p, q, elapsed, now)
    ensures Overcount(p, q, elapsed, now) == 0 <==> q == p
  {
    hide CapOf, PeerBandwidth;
    if p != [] {
      var k := |p| - 1;
      OvercountZero(p[..k], q[..k], elapsed, now);
      assert p == p[..k] + [p[k]] && q == q[..k] + [q[k]];
      if q[k] != p[k] {
        assert Excess(p[k], elapsed) > 0;
      }
    }
  }

  /** At this share every peer gets no more than it can take. */
  ghost predicate NobodyExceeds(p: seq<Peer>, share: u32, elapsed: u32, now: u32) {
    forall k :: 0 <= k < |p| ==> !Exceeds(p[k], share, elapsed, now)
  }

  /** A pass caps somebody exactly when somebody from `i` on exceeds. */
  lemma {:induction false} PassCaps(p: seq<Peer>, i: nat, share: u32, t: Tally, elapsed: u32, now: u32)
    requires i <= |p|
    ensures var r := Pass(p, i, share, t, elapsed, now);
            && (r.2 <==> exists k :: i <= k < |p| && Exceeds(p[k], share, elapsed, now))
            && (!r.2 ==> r.0 == p && r.1 == t)
    decreases |p| - i
  {
    hide Exceeds;
    if i < |p| && !Exceeds(p[i], share, elapsed, now) {
      PassCaps(p, i + 1, share, t, elapsed, now);
    }
  }

  lemma {:induction false} PassesClose(p: seq<Peer>, t: Tally, needed: bool, elapsed: u32, now: u32)
    ensures CountOpen(Passes(p, t, needed, elapsed, now).0, now) <= CountOpen(p, now)
    decreases CountOpen(p, now), needed
  {
    hide CountOpen, Pass, Share;
    if t.remaining > 0 && needed {
      var (q, u, again) := Pass(p, 0, Share(t), t, elapsed, now);
      PassCloses(p, 0, Share(t), t, elapsed, now);
      PassesClose(q, u, again, elapsed, now);
    }
  }

  /** The passes change anything exactly when somebody exceeds the share they start with. */
  lemma CapsNobodyExactly(p: seq<Peer>, t: Tally, limitedPeers: nat, elapsed: u32, now: u32)
    requires t.remaining == CountOpen(p, now)
    requires limitedPeers > 0 || forall k :: 0 <= k < |p| && p[k].connected ==> p[k].incomingBandwidth == 0
    ensures Passes(p, t, limitedPeers > 0, elapsed, now).0 == p <==> NobodyExceeds(p, Share(t), elapsed, now)
    ensures NobodyExceeds(p, Share(t), elapsed, now) ==> Passes(p, t, limitedPeers > 0, elapsed, now).1 == t
  {
    hide CountOpen, Pass, Share;
    if t.remaining == 0 {
      NoneConnected(p, now);
    } else if limitedPeers > 0 {
      PassCaps(p, 0, Share(t), t, elapsed, now);
      PassCloses(p, 0, Share(t), t, elapsed, now);
      var (q, u, again) := Pass(p, 0, Share(t), t, elapsed, now);
      PassesClose(q, u, again, elapsed, now);
    }
  }

  /** When the passes are over, the total exceeds what the open peers want by what the
      capped ones wanted beyond what they take; it is exact if and only if, to begin with,
      nobody would get more than it can take. */
  lemma TotalLeft(p: seq<Peer>, t: Tally, limitedPeers: nat, elapsed: u32, now: u32)
    requires t.remaining == CountOpen(p, now) && t.dataTotal == OpenData(p, now)
    requires limitedPeers > 0 || forall k :: 0 <= k < |p| && p[k].connected ==> p[k].incomingBandwidth == 0
    requires AllModest(p, elapsed)
    requires t.dataTotal <= t.bandwidth || SCALE * t.bandwidth < TWO32
    ensures var (q, u) := Passes(p, t, limitedPeers > 0, elapsed, now);
            && u.dataTotal - OpenData(q, now) == Overcount(p, q, elapsed, now)
            && (u.dataTotal == OpenData(q, now) <==> NobodyExceeds(p, Share(t), elapsed, now))
  {
    hide Share, Passes, PeerBandwidth, OpenData, CountOpen, NobodyExceeds;
    NothingSpent(p, elapsed, now);
    PassesKeep(p, p, t, limitedPeers > 0, t.bandwidth, 0, elapsed, now);
    var (q, u) := Passes(p, t, limitedPeers > 0, elapsed, now);
    OvercountZero(p, q, elapsed, now);
    CapsNobodyExactly(p, t, limitedPeers, elapsed, now);
  }

  /** Then the share that is left is the one for the data of the open peers, which are all. */
  lemma ShareRight(p: seq<Peer>, t: Tally, limitedPeers: nat, elapsed: u32, now: u32)
    requires t.remaining == CountOpen(p, now) && t.dataTotal == OpenData(p, now)
    requires limitedPeers > 0 || forall k :: 0 <= k < |p| && p[k].connected ==> p[k].incomingBandwidth == 0
    requires NobodyExceeds(p, Share(t), elapsed, now)
    ensures var (q, u) := Passes(p, t, limitedPeers > 0, elapsed, now);
            && OpenData(q, now) == OpenData(p, now)
            && Share(u) == Share(u.(dataTotal := OpenData(q, now)))
    ensures Throttled(p, t, limitedPeers, elapsed, now) == if t.remaining == 0 then p else ShareRest(p, Share(t), now)
  {
    hide Share, Passes, OpenData, CountOpen, NobodyExceeds;
    CapsNobodyExactly(p, t, limitedPeers, elapsed, now);
  }

  /** A total that is too large never makes the share larger. */
  lemma ShareShrinks(t: Tally, open: u32)
    requires open <= t.dataTotal && (open <= t.bandwidth || SCALE * t.bandwidth < TWO32)
    requires t.dataTotal <= t.bandwidth || SCALE * t.bandwidth < TWO32
    ensures Share(t) <= Share(t.(dataTotal := open))
  {
    ShareFits(t, t.dataTotal);
    if open > t.bandwidth {
      QuotientShrinks(U32(t.bandwidth * SCALE), open, t.dataTotal);
    }
  }

  lemma QuotientShrinks(x: u32, small: u32, large: u32)
    requires 0 < small <= large
    ensures Quotient(x, large) <= Quotient(x, small)
  {
    var a, b := Quotient(x, large), Quotient(x, small);
    assert (b + 1) * small == b * small + small;
    FactorLe(a, b, small, large, x);
  }

  lemma FactorLe(a: nat, b: nat, small: nat, large: nat, x: nat)
    requires small <= large && a * large <= x < (b + 1) * small
    ensures a <= b
  {
    if a > b {
      MulLe(b + 1, a, large);
      MulLe(small, large, b + 1);
    }
  }

  /** And it can make it smaller: two peers of which one can take ten of the hundred that
      each wants, and a bandwidth of a hundred. The other is limited to 15 parts in 32,
      where what is left would allow 28. */
  lemma ShareCanFallShort() returns (p: seq<Peer>)
    ensures p == [Peer(true, 10, 0, 100, 32, 32, 0), Peer(true, 0, 0, 100, 32, 32, 0)]
    ensures var t := Opening(p, 2, 100, 1000);
            var (q, u) := Passes(p, t, true, 1000, 5000);
            && Exceeds(p[0], Share(t), 1000, 5000)
            && Throttled(p, t, 1, 1000, 5000)[1].limit == Share(u) == 15
            && OpenData(q, 5000) == 100 && Share(u.(dataTotal := 100)) == 28
  {
    var a, b := Peer(true, 10, 0, 100, 32, 32, 0), Peer(true, 0, 0, 100, 32, 32, 0);
    p := [a, b];
    TwoPasses(a, b);
    OpeningOfTwo(a, b);
    hide Passes, Share, Exceeds, Opening, OpenData, Capped;
    assert [Capped(a, 1000, 5000), b][1] == b;
  }

  lemma OpeningOfTwo(a: Peer, b: Peer)
    requires a.connected && b.connected && a.outgoingDataTotal == b.outgoingDataTotal == 100
    ensures Opening([a, b], 2, 100, 1000) == Tally(2, 100, 200)
  {
    ConnectedOneMore([], a);
    ConnectedOneMore([a], b);
    assert [] + [a] == [a] && [a] + [b] == [a, b];
  }

  lemma ConnectedOneMore(peers: seq<Peer>, p: Peer)
    ensures ConnectedData(peers + [p]) == ConnectedData(peers) + if p.connected then p.outgoingDataTotal else 0
  {
    assert (peers + [p])[..|peers|] == peers;
  }

  lemma TwoPasses(a: Peer, b: Peer)
    requires a == Peer(true, 10, 0, 100, 32, 32, 0) && b == Peer(true, 0, 0, 100, 32, 32, 0)
    ensures var t, u := Tally(2, 100, 200), Tally(1, 90, 190);
            && Exceeds(a, Share(t), 1000, 5000)
            && Passes([a, b], t, true, 1000, 5000) == ([Capped(a, 1000, 5000), b], u)
            && OpenData([Capped(a, 1000, 5000), b], 5000) == 100
            && Share(u) == 15 && Share(u.(dataTotal := 100)) == 28
  {
    var p, c := [a, b], Capped(a, 1000, 5000);
    var q := [c, b];
    var t, u := Tally(2, 100, 200), Tally(1, 90, 190);
    assert Share(t) == 16 && Share(u) == 15 && Share(u.(dataTotal := 100)) == 28;
    assert p[0 := c] == q;
    assert Less(t, 10) == u;
    assert PeerBandwidth(a, 1000) == 10;
    assert Exceeds(a, 16, 1000, 5000) && !Exceeds(b, 16, 1000, 5000);
    assert !Exceeds(c, 15, 1000, 5000) && !Exceeds(b, 15, 1000, 5000);
    assert Pass(q, 2, 16, u, 1000, 5000) == (q, u, false);
    assert Pass(q, 1, 16, u, 1000, 5000) == (q, u, false);
    assert Pass(p, 0, 16, t, 1000, 5000) == (q, u, true);
    assert Pass(q, 2, 15, u, 1000, 5000) == (q, u, false);
    assert Pass(q, 1, 15, u, 1000, 5000) == (q, u, false);
    assert Pass(q, 0, 15, u, 1000, 5000) == (q, u, false);
    assert Passes(q, u, true, 1000, 5000) == Passes(q, u, false, 1000, 5000) == (q, u);
    assert q[..1] == [c] && [c][..0] == [];
    assert OpenData([c], 5000) == 0;
  }
}
