/**
 A peer from event to event: which events lead into each of the ten states, and what every
 run of events keeps. A connection is made only by an answered request, and the application
 hears of every connection once, and of every end of one that it did not bring about itself.
 */
module PeerLife {
  import opened Words
  import opened PeerStates

  /** What can happen to a peer. Where `event` occurs it tells whether the application is
      there to be told at once, and `pending` whether commands are still outgoing. */
  datatype Event =
    | Connects(address: Address, connectID: u32, outgoingBandwidth: u32)
    | Requested(request: Request, outgoingBandwidth: u32)
    | Verified(verify: Verify, event: bool)
    | Acknowledged(removed: Removed, pending: bool, event: bool)
    | DisconnectCame(acknowledge: bool)
    | DisconnectAcknowledged
    | TimedOut(event: bool)
    | Dispatched
    | SentUnreliable(pending: bool)
    | Disconnects
    | DisconnectsLater(pending: bool)
    | DisconnectsNow
    | Limited(incomingBandwidth: u32, outgoingBandwidth: u32)
    | RoundTripped(roundTrip: u32, last: u32, variance: u32)

  function After(p: Peer, e: Event, mtu: u32): Peer {
    match e
    case Connects(address, connectID, outgoingBandwidth) => AfterConnect(p, address, connectID, outgoingBandwidth, mtu)
    case Requested(r, outgoingBandwidth) => AfterRequest(p, r, outgoingBandwidth, mtu)
    case Verified(v, event) => AfterVerifyConnect(p, v, event)
    case Acknowledged(removed, pending, event) => AfterAcknowledge(p, removed, pending, event, mtu)
    case DisconnectCame(acknowledge) => AfterHandleDisconnect(p, acknowledge, mtu)
    case DisconnectAcknowledged => AfterAcknowledgementSent(p)
    case TimedOut(event) => AfterNotifyDisconnect(p, event, mtu)
    case Dispatched => AfterDispatch(p, mtu)
    case SentUnreliable(pending) => AfterUnreliableSent(p, pending, mtu)
    case Disconnects => AfterDisconnect(p, mtu)
    case DisconnectsLater(pending) => AfterDisconnectLater(p, pending, mtu)
    case DisconnectsNow => AfterDisconnectNow(p, mtu)
    case Limited(incomingBandwidth, outgoingBandwidth) =>
      AfterBandwidthLimit(p, incomingBandwidth, outgoingBandwidth)
    case RoundTripped(roundTrip, last, variance) => AfterThrottle(p, roundTrip, last, variance)
  }

  /** What the application is told of it. */
  function Told(p: Peer, e: Event): Report {
    match e
    case Verified(v, event) => VerifyReport(p, v, event)
    case Acknowledged(removed, _, event) => AcknowledgeReport(p.state, removed, event)
    case TimedOut(event) => NotifyDisconnectReport(p.state, event)
    case Dispatched => DispatchReport(p.state)
    case _ => Silent
  }

  /** A peer, and whether it has the acknowledgement of a disconnect to send. */
  datatype Life = Life(peer: Peer, owes: bool)

  /** The states in which a disconnect is acknowledged. */
  predicate Acknowledges(s: State) {
    !s.Disconnecting? && !s.AcknowledgingConnect? && !s.Disconnected? && !s.Zombie?
  }

  /** Only a free peer is taken, and nothing is sent for one that is free or a zombie. */
  predicate Possible(l: Life, e: Event) {
    var s := l.peer.state;
    match e
    case Connects(_, _, _) => s.Disconnected?
    case Requested(_, _) => s.Disconnected?
    case DisconnectAcknowledged => l.owes && !s.Disconnected? && !s.Zombie?
    case TimedOut(_) => !s.Disconnected? && !s.Zombie?
    case SentUnreliable(_) => !s.Disconnected? && !s.Zombie?
    case _ => true
  }

  function Step(l: Life, e: Event, mtu: u32): Life {
    var p := After(l.peer, e, mtu);
    var queued := e.DisconnectCame? && e.acknowledge && Acknowledges(p.state);
    Life(p, !p.state.Disconnected? && (l.owes || queued))
  }

  // ----- which events lead where

  /** An answer to our own request: the request's identity and pace, and 1 to 255 channels. */
  predicate Answers(p: Peer, e: Event) {
    && p.state.Connecting? && e.Verified?
    && e.verify.connectID == p.connectID && e.verify.pace == p.pace && 1 <= e.verify.channels <= 255
  }

  /** The acknowledgement of our answer to the other end's request. */
  predicate Confirms(p: Peer, e: Event) {
    p.state.AcknowledgingConnect? && e.Acknowledged? && e.removed.VerifyConnect?
  }

  predicate Connection(s: State) {
    s.Connected? || s.DisconnectLater?
  }

  /** The disconnect we asked for was acknowledged. */
  predicate Parts(p: Peer, e: Event) {
    p.state.Disconnecting? && e.Acknowledged? && e.removed.Disconnect?
  }

  /** A connection is made by an answer, a confirmation, or the dispatch of either. */
  lemma ConnectedExactly(l: Life, e: Event, mtu: u32)
    requires Possible(l, e)
    ensures !l.peer.state.Connecting? && After(l.peer, e, mtu).state.Connecting? <==> e.Connects?
    ensures !l.peer.state.AcknowledgingConnect? && After(l.peer, e, mtu).state.AcknowledgingConnect? <==> e.Requested?
    ensures !l.peer.state.ConnectionSucceeded? && After(l.peer, e, mtu).state.ConnectionSucceeded? <==>
              Answers(l.peer, e) && !e.event
    ensures !l.peer.state.ConnectionPending? && After(l.peer, e, mtu).state.ConnectionPending? <==>
              Confirms(l.peer, e) && !e.event
    ensures !l.peer.state.Connected? && After(l.peer, e, mtu).state.Connected? <==>
              || (Answers(l.peer, e) && e.event) || (Confirms(l.peer, e) && e.event)
              || (e.Dispatched? && (l.peer.state.ConnectionPending? || l.peer.state.ConnectionSucceeded?))
  {
  }

  /** Only a connection is taken down in steps: later, by our own disconnect, or by one of
      the other end that asks for an acknowledgement. */
  lemma LeavingExactly(l: Life, e: Event, mtu: u32)
    requires Possible(l, e)
    ensures !l.peer.state.DisconnectLater? && After(l.peer, e, mtu).state.DisconnectLater? <==>
              l.peer.state.Connected? && e == DisconnectsLater(true)
    ensures !l.peer.state.Disconnecting? && After(l.peer, e, mtu).state.Disconnecting? <==>
              || (Connection(l.peer.state) && (e.Disconnects? || e == DisconnectsLater(false)))
              || (l.peer.state.DisconnectLater? && (e.Acknowledged? || e.SentUnreliable?) && !e.pending)
    ensures !l.peer.state.AcknowledgingDisconnect? && After(l.peer, e, mtu).state.AcknowledgingDisconnect? <==>
              Connection(l.peer.state) && e == DisconnectCame(true)
  {
  }

  /** A zombie waits to be reported: its connection, or our own request, has come to an end
      and the application was not there to be told. */
  lemma ZombieExactly(l: Life, e: Event, mtu: u32)
    requires Possible(l, e)
    ensures !l.peer.state.Zombie? && After(l.peer, e, mtu).state.Zombie? <==>
              var s := l.peer.state;
              || (s.Connecting? && e.Verified? && !Answers(l.peer, e))
              || (e.DisconnectCame? && (s.Connecting? || s.ConnectionSucceeded? || s.Disconnecting?))
              || (Connection(s) && e == DisconnectCame(false))
              || e.DisconnectAcknowledged?
              || (e == TimedOut(false) && !s.AcknowledgingConnect? && !s.ConnectionPending?)
              || (Parts(l.peer, e) && !e.event)
  {
  }

  /** A peer is freed, and then as new, by the dispatch that reports it, at once when the
      application is there to be told, by the application itself, or if the other end gives
      up before it was connected. */
  lemma FreedExactly(l: Life, e: Event, mtu: u32)
    requires Possible(l, e)
    ensures !l.peer.state.Disconnected? && After(l.peer, e, mtu).state.Disconnected? <==>
              var s := l.peer.state;
              || (s.Zombie? && e.Dispatched?)
              || (e == TimedOut(true) || (e.TimedOut? && (s.AcknowledgingConnect? || s.ConnectionPending?)))
              || (Parts(l.peer, e) && e.event)
              || (e.DisconnectCame? && (s.AcknowledgingConnect? || s.ConnectionPending?))
              || (e.DisconnectsNow? && !s.Disconnected?)
              || ((e.Disconnects? || e.DisconnectsLater?)
                  && (s.Connecting? || s.AcknowledgingConnect? || s.ConnectionPending? || s.ConnectionSucceeded?))
    ensures After(l.peer, e, mtu).state.Disconnected? ==>
              || l.peer.state.Disconnected?
              || After(l.peer, e, mtu)
                   == Peer(Disconnected, l.peer.address, 0, 0, 65536, mtu, 32, 32, Pace(5000, 2, 2))
  {
  }

  /** But for requests, answers, limits and round trips, an event changes nothing but the
      state of a peer that it does not free, and nothing at all if it leaves that. */
  lemma StateOnly(l: Life, e: Event, mtu: u32)
    requires Possible(l, e)
    requires !e.Connects? && !e.Requested? && !e.Verified? && !e.Limited? && !e.RoundTripped?
    ensures var p, q := l.peer, After(l.peer, e, mtu);
            && (q.state.Disconnected? || q == p.(state := q.state))
            && (q.state == p.state ==> q == p)
  {
  }

  // ----- runs

  function LifeAfter(run: seq<Event>, p: Peer, mtu: u32): Life {
    if run == [] then Life(p, false) else Step(LifeAfter(run[..|run| - 1], p, mtu), run[|run| - 1], mtu)
  }

  /** Every event can happen in its turn. */
  predicate Happens(run: seq<Event>, p: Peer, mtu: u32) {
    forall k :: 0 <= k < |run| ==> Possible(LifeAfter(run[..k], p, mtu), run[k])
  }

  function StateAt(run: seq<Event>, k: nat, p: Peer, mtu: u32): State
    requires k <= |run|
  {
    LifeAfter(run[..k], p, mtu).peer.state
  }

  function ToldAt(run: seq<Event>, k: nat, p: Peer, mtu: u32): Report
    requires k < |run|
  {
    Told(LifeAfter(run[..k], p, mtu).peer, run[k])
  }

  lemma Shorter(run: seq<Event>, p: Peer, mtu: u32)
    requires run != [] && Happens(run, p, mtu)
    ensures Happens(run[..|run| - 1], p, mtu)
    ensures forall k :: 0 <= k < |run| ==> run[..|run| - 1][..k] == run[..k]
    ensures forall k :: 0 <= k < |run| ==> StateAt(run[..|run| - 1], k, p, mtu) == StateAt(run, k, p, mtu)
    ensures forall k :: 0 <= k < |run| - 1 ==> ToldAt(run[..|run| - 1], k, p, mtu) == ToldAt(run, k, p, mtu)
    ensures run[..|run|] == run
  {
    hide Possible, Step, Told;
    var fewer := run[..|run| - 1];
    assert forall k :: 0 <= k < |run| ==> fewer[..k] == run[..k];
  }

  /** The application was told of a connection that neither it nor anything else has ended. */
  predicate Standing(run: seq<Event>, p: Peer, mtu: u32) {
    && run != []
    && var k := |run| - 1;
       match ToldAt(run, k, p, mtu)
       case ConnectReport => true
       case DisconnectReport => false
       case Silent => !run[k].DisconnectsNow? && Standing(run[..k], p, mtu)
  }

  /** The last request was our own, and the application has not been told of its end. */
  predicate Ours(run: seq<Event>, p: Peer, mtu: u32) {
    && run != []
    && var k := |run| - 1;
       !ToldAt(run, k, p, mtu).DisconnectReport? && !run[k].Requested? && (run[k].Connects? || Ours(run[..k], p, mtu))
  }

  /** What a state says about the events that led to it. */
  ghost predicate Accounted(l: Life, standing: bool, ours: bool) {
    var s := l.peer.state;
    && (Connection(s) || s.Disconnecting? || s.AcknowledgingDisconnect? ==> standing)
    && (s.Disconnected? || s.Connecting? || s.ConnectionSucceeded? ==> !standing)
    && (s.AcknowledgingConnect? || s.ConnectionPending? ==> !standing)
    && (s.Connecting? || s.ConnectionSucceeded? ==> ours)
    && (s.Zombie? ==> standing || ours)
    && (l.owes ==> s.AcknowledgingDisconnect? || s.Zombie?)
  }

  lemma {:induction false} RunAccounted(run: seq<Event>, p: Peer, mtu: u32)
    requires p.state.Disconnected? && Happens(run, p, mtu)
    ensures Accounted(LifeAfter(run, p, mtu), Standing(run, p, mtu), Ours(run, p, mtu))
  {
    if run != [] {
      var k := |run| - 1;
      Shorter(run, p, mtu);
      RunAccounted(run[..k], p, mtu);
      StepAccounted(LifeAfter(run[..k], p, mtu), run[k], mtu, Standing(run[..k], p, mtu), Ours(run[..k], p, mtu));
    }
  }

  lemma StepAccounted(l: Life, e: Event, mtu: u32, standing: bool, ours: bool)
    requires Possible(l, e) && Accounted(l, standing, ours)
    ensures var told := Told(l.peer, e);
            Accounted(Step(l, e, mtu),
              told.ConnectReport? || (told.Silent? && !e.DisconnectsNow? && standing),
              !told.DisconnectReport? && !e.Requested? && (e.Connects? || ours))
  {
    ConnectedExactly(l, e, mtu);
    LeavingExactly(l, e, mtu);
    ZombieExactly(l, e, mtu);
    FreedExactly(l, e, mtu);
  }

  /** A connection ends when its end is told, or by the application's own doing. */
  predicate Ends(run: seq<Event>, k: nat, p: Peer, mtu: u32)
    requires k < |run|
  {
    ToldAt(run, k, p, mtu).DisconnectReport? || run[k].DisconnectsNow?
  }

  lemma {:induction false} StandsUntilEnded(run: seq<Event>, i: nat, p: Peer, mtu: u32)
    requires Happens(run, p, mtu) && i < |run| && ToldAt(run, i, p, mtu).ConnectReport?
    requires forall k :: i < k < |run| ==> !Ends(run, k, p, mtu)
    ensures Standing(run, p, mtu)
  {
    hide Happens, Told, LifeAfter;
    var n := |run| - 1;
    if i < n {
      Shorter(run, p, mtu);
      assert !Ends(run, n, p, mtu);
      assert forall k :: i < k < n ==> Ends(run[..n], k, p, mtu) == Ends(run, k, p, mtu);
      StandsUntilEnded(run[..n], i, p, mtu);
    }
  }

  lemma Cut(run: seq<Event>, n: nat, p: Peer, mtu: u32)
    requires Happens(run, p, mtu) && n <= |run|
    ensures Happens(run[..n], p, mtu)
    ensures forall k :: 0 <= k <= n ==> run[..n][..k] == run[..k]
    ensures forall k :: 0 <= k < n ==> ToldAt(run[..n], k, p, mtu) == ToldAt(run, k, p, mtu)
  {
    hide Possible, Step, Told;
    assert forall k :: 0 <= k <= n ==> run[..n][..k] == run[..k];
  }

  /** In every run: a connection the application was told of is told of again, or its peer
      is free, only after its end was told or the application ended it at once. */
  lemma EveryEndIsTold(run: seq<Event>, i: nat, n: nat, p: Peer, mtu: u32)
    requires p.state.Disconnected? && Happens(run, p, mtu)
    requires i < n <= |run| && ToldAt(run, i, p, mtu).ConnectReport?
    requires StateAt(run, n, p, mtu).Disconnected? || (n < |run| && ToldAt(run, n, p, mtu).ConnectReport?)
    ensures exists k :: i < k < n && Ends(run, k, p, mtu)
  {
    Cut(run, n, p, mtu);
    RunAccounted(run[..n], p, mtu);
    if forall k :: i < k < n ==> !Ends(run, k, p, mtu) {
      assert forall k :: i < k < n ==> Ends(run[..n], k, p, mtu) == Ends(run, k, p, mtu);
      StandsUntilEnded(run[..n], i, p, mtu);
    }
  }

  /** Something whose end may be told: a connection that was told, or our own request. */
  predicate Starts(run: seq<Event>, k: nat, p: Peer, mtu: u32)
    requires k < |run|
  {
    ToldAt(run, k, p, mtu).ConnectReport? || run[k].Connects?
  }

  /** It started and its end was not told since. */
  predicate Untold(run: seq<Event>, i: nat, p: Peer, mtu: u32) {
    && i < |run| && Starts(run, i, p, mtu)
    && (forall k :: i < k < |run| ==> !ToldAt(run, k, p, mtu).DisconnectReport?)
  }

  lemma {:induction false} StartedBefore(run: seq<Event>, p: Peer, mtu: u32)
    requires Happens(run, p, mtu) && (Standing(run, p, mtu) || Ours(run, p, mtu))
    ensures exists i: nat :: Untold(run, i, p, mtu)
  {
    hide Happens, Told, LifeAfter;
    var n := |run| - 1;
    if Starts(run, n, p, mtu) {
      assert Untold(run, n, p, mtu);
    } else {
      Shorter(run, p, mtu);
      StartedBefore(run[..n], p, mtu);
      var i: nat :| Untold(run[..n], i, p, mtu);
      assert Untold(run, i, p, mtu);
    }
  }

  /** In every run: an end is told only of a connection that was told, or of our own
      request, and only once of each. */
  lemma NoEndToldTwice(run: seq<Event>, n: nat, p: Peer, mtu: u32)
    requires p.state.Disconnected? && Happens(run, p, mtu)
    requires n < |run| && ToldAt(run, n, p, mtu).DisconnectReport?
    ensures exists i: nat :: Untold(run[..n], i, p, mtu)
  {
    Cut(run, n, p, mtu);
    RunAccounted(run[..n], p, mtu);
    StartedBefore(run[..n], p, mtu);
  }

  // ----- the handshake

  /** The peer was taken by event `k` and has not been free since. */
  predicate TakenAt(run: seq<Event>, k: nat, p: Peer, mtu: u32) {
    && k < |run| && (run[k].Connects? || run[k].Requested?)
    && (forall m :: k < m <= |run| ==> !StateAt(run, m, p, mtu).Disconnected?)
  }

  /** Event `j` answers our request made by `k`, or confirms the other end's. */
  predicate Shakes(run: seq<Event>, k: nat, j: nat, p: Peer, mtu: u32) {
    && k < j < |run|
    && var before := LifeAfter(run[..j], p, mtu).peer;
       || (run[k].Connects? && Answers(before, run[j]) && run[j].verify.connectID == run[k].connectID)
       || (run[k].Requested? && Confirms(before, run[j]))
  }

  /** Connected, about to be, or about to leave. */
  predicate Made(s: State) {
    !s.Disconnected? && !s.Connecting? && !s.AcknowledgingConnect? && !s.Zombie?
  }

  /** What a peer's state tells of the request that took it. */
  ghost predicate Handshaken(run: seq<Event>, k: nat, p: Peer, mtu: u32)
    requires k < |run|
  {
    var q := LifeAfter(run, p, mtu).peer;
    && (q.state.Connecting? ==> run[k].Connects? && q.connectID == run[k].connectID)
    && (q.state.AcknowledgingConnect? ==> run[k].Requested?)
    && (Made(q.state) ==> exists j: nat :: Shakes(run, k, j, p, mtu))
  }

  /** In every run: whoever is connected, about to be or about to leave was taken by a
      request that has since been answered, and was not free in between. */
  lemma {:induction false} OnlyByHandshake(run: seq<Event>, p: Peer, mtu: u32)
    requires p.state.Disconnected? && Happens(run, p, mtu) && !LifeAfter(run, p, mtu).peer.state.Disconnected?
    ensures exists k: nat :: TakenAt(run, k, p, mtu) && Handshaken(run, k, p, mtu)
  {
    hide Happens, Told, After, Shakes;
    var n := |run| - 1;
    var fewer, e := run[..n], run[n];
    Shorter(run, p, mtu);
    var l := LifeAfter(fewer, p, mtu);
    PossibleLast(run, p, mtu);
    TakenOrMade(l, e, mtu);
    if e.Connects? || e.Requested? {
      assert TakenAt(run, n, p, mtu) && Handshaken(run, n, p, mtu);
    } else {
      OnlyByHandshake(fewer, p, mtu);
      var k: nat :| TakenAt(fewer, k, p, mtu) && Handshaken(fewer, k, p, mtu);
      assert forall m :: k < m <= n ==> !StateAt(fewer, m, p, mtu).Disconnected?;
      assert StateAt(run, n + 1, p, mtu) == LifeAfter(run, p, mtu).peer.state;
      assert TakenAt(run, k, p, mtu);
      HandshakeStays(run, k, p, mtu);
    }
  }

  lemma PossibleLast(run: seq<Event>, p: Peer, mtu: u32)
    requires run != [] && Happens(run, p, mtu)
    ensures Possible(LifeAfter(run[..|run| - 1], p, mtu), run[|run| - 1])
  {
  }

  lemma TakenOrMade(l: Life, e: Event, mtu: u32)
    requires Possible(l, e)
    ensures var q := After(l.peer, e, mtu);
            && (e.Connects? ==> q.state.Connecting? && q.connectID == e.connectID)
            && (e.Requested? ==> q.state.AcknowledgingConnect?)
            && (!e.Connects? && !e.Requested? && !q.state.Disconnected? ==>
                  && !l.peer.state.Disconnected?
                  && (q.state.Connecting? ==> l.peer.state.Connecting? && q.connectID == l.peer.connectID)
                  && (q.state.AcknowledgingConnect? ==> l.peer.state.AcknowledgingConnect?)
                  && (Made(q.state) ==> Made(l.peer.state) || Answers(l.peer, e) || Confirms(l.peer, e)))
  {
  }

  lemma HandshakeStays(run: seq<Event>, k: nat, p: Peer, mtu: u32)
    requires run != [] && Happens(run, p, mtu) && k < |run| - 1
    requires !run[|run| - 1].Connects? && !run[|run| - 1].Requested?
    requires !LifeAfter(run, p, mtu).peer.state.Disconnected? && Handshaken(run[..|run| - 1], k, p, mtu)
    ensures Handshaken(run, k, p, mtu)
  {
    hide Happens, After, Told;
    var n := |run| - 1;
    var fewer, e := run[..n], run[n];
    Shorter(run, p, mtu);
    var l := LifeAfter(fewer, p, mtu);
    PossibleLast(run, p, mtu);
    TakenOrMade(l, e, mtu);
    if j: nat :| Shakes(fewer, k, j, p, mtu) {
      assert Shakes(run, k, j, p, mtu);
    } else if Answers(l.peer, e) || Confirms(l.peer, e) {
      assert Shakes(run, k, n, p, mtu);
    }
  }
}
