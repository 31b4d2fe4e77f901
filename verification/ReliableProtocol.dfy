/**
 A reliable channel as a whole: a sender, a receiver and a network that loses,
 duplicates, delays and reorders data and acknowledgements, and what every run keeps.
 */
module ReliableProtocol {
  import opened Words
  import opened ReliableWindows
  import opened ReliableReceiver
  import opened Fragments
  import opened ReceiverInvariant
  import opened ReliableSender

  /** The maximum packet size of each host. */
  datatype Limits = Limits(sender: nat, receiver: nat)

  /** `newest` is the last number that was ever put on the wire and `acked` are the
      numbers for which an acknowledgement was ever sent. Copies of any of them may be
      on the way, so these two stand for the network as well. */
  datatype System = System(sent: Sent, sender: Sender, newest: nat, receiver: Receiver, acked: set<nat>)

  datatype Action =
    | Send(packet: seq<byte>)
    | Transmit(throttle: nat, windowSize: nat, mtu: nat)
    | TimeOut(expired: seq<bool>)
    | Deliver(n: nat, room: bool, blank: seq<byte>)
    | DeliverAck(a: nat)

  function Start(fl: Length): System {
    System(Sent([], fl), Sender(0, [], [], seq(16, _ => 0), {}, 0), 0, Receiver(0, [], []), {})
  }

  // ----- the steps

  /** How many bytes the command for piece `j` carries. */
  function PieceLength(size: nat, fl: Length, j: nat): nat
    requires j < Pieces(size, fl)
  {
    if size <= fl then size
    else
      PiecesPartition(size, fl, j);
      To(j, size, fl) - From(j, fl)
  }

  /** Commands for the first `k` pieces of a packet get the numbers from `first` on. */
  function EnqueuePieces(s: Sender, first: nat, size: nat, fl: Length, k: nat): Sender
    requires k <= Pieces(size, fl)
  {
    if k == 0 then s
    else Enqueue(EnqueuePieces(s, first, size, fl, k - 1), first + (k - 1), PieceLength(size, fl, k - 1))
  }

  /** The application sends a packet; one that is too big is refused. */
  function SendPacket(y: System, packet: seq<byte>, limit: nat): System {
    var k := Pieces(|packet|, y.sent.fl);
    if |packet| > limit || k > MAXIMUM_FRAGMENT_COUNT then y
    else
      FirstMono(y.sent, 0, |y.sent.packets|);
      y.(sent := y.sent.(packets := y.sent.packets + [packet]),
         sender := EnqueuePieces(y.sender, First(y.sent, |y.sent.packets|), |packet|, y.sent.fl, k))
  }

  function TransmitHead(y: System): System
    requires |y.sender.outgoing| > 0
  {
    y.(sender := SendHead(y.sender), newest := if y.sender.outgoing[0].attempts < 1 then y.newest + 1 else y.newest)
  }

  /** A copy of the command with number `n` reaches the receiver's handler. */
  function HandleCopy(t: Sent, r: Receiver, n: nat, limit: nat, room: bool, blank: seq<byte>): (Receiver, bool)
    requires 1 <= n < First(t, |t.packets|)
    requires |blank| == |t.packets[OwnerOf(t, |t.packets|, n)]|
  {
    var i := OwnerOf(t, |t.packets|, n);
    if |t.packets[i]| <= t.fl then HandleReliable(r, Wire(First(t, i)), t.packets[i], limit, room)
    else HandleFragment(r, PieceFragment(t.packets[i], t.fl, First(t, i), n - First(t, i)), limit, room, blank)
  }

  /** After the handler, the command is acknowledged, unless the handler failed or the
      number looks seven or eight windows ahead. */
  function DeliverCopy(y: System, n: nat, limit: nat, room: bool, blank: seq<byte>): System
    requires 1 <= n < First(y.sent, |y.sent.packets|)
    requires |blank| == |y.sent.packets[OwnerOf(y.sent, |y.sent.packets|, n)]|
  {
    var (r, ok) := HandleCopy(y.sent, y.receiver, n, limit, room, blank);
    y.(receiver := r, acked := if ok && !Unacknowledged(Wire(n), r.number) then y.acked + {n} else y.acked)
  }

  /** The assumption on the network, for data: no copy of a dispatched packet's command
      arrives when the packet starts more than nine windows behind the receiver. */
  ghost predicate DataFresh(y: System, n: nat) {
    && 1 <= n < First(y.sent, |y.sent.packets|)
    && var i, m := OwnerOf(y.sent, |y.sent.packets|, n), |y.receiver.dispatched|;
    && (i < m <= |y.sent.packets| ==> Win(First(y.sent, i)) + 9 >= Win(Base(y.sent, m)))
  }

  /** And for acknowledgements: none arrives a whole round of windows behind the newest
      number sent. */
  predicate AckFresh(y: System, a: nat) {
    Win(y.newest) <= Win(a) + 15
  }

  ghost predicate Enabled(y: System, act: Action) {
    match act
    case Send(_) => true
    case Transmit(throttle, windowSize, mtu) =>
      && throttle <= PACKET_THROTTLE_SCALE && windowSize <= MAXIMUM_WINDOW_SIZE && mtu <= MAXIMUM_MTU
      && MaySend(y.sender, TransitLimit(throttle, windowSize, mtu))
    case TimeOut(expired) => |expired| == |y.sender.sent|
    case Deliver(n, _, blank) =>
      && n <= y.newest && DataFresh(y, n)
      && |blank| == |y.sent.packets[OwnerOf(y.sent, |y.sent.packets|, n)]|
    case DeliverAck(a) => a in y.acked && AckFresh(y, a)
  }

  ghost function Next(y: System, act: Action, limits: Limits): System
    requires Enabled(y, act)
  {
    match act
    case Send(packet) => SendPacket(y, packet, limits.sender)
    case Transmit(_, _, _) => TransmitHead(y)
    case TimeOut(expired) => y.(sender := Expire(y.sender, expired))
    case Deliver(n, room, blank) => DeliverCopy(y, n, limits.receiver, room, blank)
    case DeliverAck(a) => y.(sender := Acknowledge(y.sender, Wire(a)))
  }

  // ----- the invariant

  ghost predicate Sending(y: System, q: nat) {
    Sends(y.sender, q, y.newest, Base(y.sent, |y.sent.packets|))
  }

  ghost predicate Receiving(y: System, idx: seq<nat>) {
    Receives(y.sent, y.receiver, idx, |y.receiver.dispatched|) && !HeadReady(y.receiver)
  }

  /** The number of the last command dispatched. */
  ghost function Reached(y: System): nat {
    if |y.receiver.dispatched| <= |y.sent.packets| then Base(y.sent, |y.receiver.dispatched|) else 0
  }

  ghost predicate KeptIn(y: System, idx: seq<nat>, n: nat) {
    Kept(y.sent, y.receiver, idx, |y.receiver.dispatched|, n)
  }

  /** The newest number sent is at most seven windows ahead of the receiver's. */
  ghost predicate Close(y: System) {
    Reached(y) <= y.newest && Win(y.newest) <= Win(Reached(y)) + 7
  }

  /** Only what was sent is kept, only what is kept is acknowledged, and never from
      seven windows ahead. */
  ghost predicate Honest(y: System, idx: seq<nat>) {
    && (forall n: nat :: n >= 1 && KeptIn(y, idx, n) ==> n <= y.newest)
    && (forall a :: a in y.acked ==> 1 <= a <= y.newest && KeptIn(y, idx, a) && Win(a) <= Win(Reached(y)) + 6)
  }

  /** The sender forgets only what was acknowledged. */
  ghost predicate Remembers(y: System, q: nat) {
    && q <= |y.sender.outgoing|
    && forall n: nat :: 1 <= n <= y.newest && n !in Unacked(y.sender, q) ==> n in y.acked
  }

  ghost predicate SizesOk(t: Sent) {
    forall i :: 0 <= i < |t.packets| ==> Pieces(|t.packets[i]|, t.fl) <= MAXIMUM_FRAGMENT_COUNT
  }

  ghost predicate Good(y: System, idx: seq<nat>, q: nat) {
    && SizesOk(y.sent) && Sending(y, q) && Receiving(y, idx)
    && Close(y) && Honest(y, idx) && Remembers(y, q)
    && y.sender.inTransit <= MAXIMUM_WINDOW_SIZE
  }

  // ----- sending a packet

  lemma {:induction false} EnqueuePiecesKeeps(s: Sender, q: nat, newest: nat, last: nat, size: nat, fl: Length, k: nat)
    requires Sends(s, q, newest, last) && k <= Pieces(size, fl)
    ensures var d := EnqueuePieces(s, last + 1, size, fl, k);
            && Sends(d, q, newest, last + k)
            && d.inTransit == s.inTransit
            && Unacked(d, q) == Unacked(s, q)
  {
    hide Sends, Pieces, PieceLength, Unacked;
    SendsBounds(s, q, newest, last);
    if k > 0 {
      EnqueuePiecesKeeps(s, q, newest, last, size, fl, k - 1);
      var e := EnqueuePieces(s, last + 1, size, fl, k - 1);
      EnqueueKeeps(e, q, newest, last + k - 1, PieceLength(size, fl, k - 1));
      EnqueueSame(e, q, newest, last + k - 1, PieceLength(size, fl, k - 1));
    }
  }

  lemma SendsBounds(s: Sender, q: nat, newest: nat, last: nat)
    requires Sends(s, q, newest, last)
    ensures q <= |s.outgoing| && newest <= last
  {
  }

  lemma EnqueueSame(s: Sender, q: nat, newest: nat, last: nat, length: nat)
    requires Sends(s, q, newest, last)
    ensures Unacked(Enqueue(s, last + 1, length), q) == Unacked(s, q)
    ensures Enqueue(s, last + 1, length).inTransit == s.inTransit
  {
    assert Enqueue(s, last + 1, length).outgoing[..q] == s.outgoing[..q];
  }

  /** A later packet changes nothing for the numbers of the earlier ones. */
  lemma {:induction false} FirstExtended(t: Sent, packet: seq<byte>, i: nat)
    requires i <= |t.packets|
    ensures First(t.(packets := t.packets + [packet]), i) == First(t, i)
  {
    if i > 0 {
      FirstExtended(t, packet, i - 1);
    }
  }

  lemma KeptExtended(t: Sent, packet: seq<byte>, r: Receiver, idx: seq<nat>, m: nat)
    requires Receives(t, r, idx, m)
    ensures Receives(t.(packets := t.packets + [packet]), r, idx, m)
    ensures forall n: nat :: Kept(t.(packets := t.packets + [packet]), r, idx, m, n) <==> Kept(t, r, idx, m, n)
  {
    hide Wire, EntryFor, Pieces, First;
    var u := t.(packets := t.packets + [packet]);
    forall i: nat | i <= |t.packets| ensures First(u, i) == First(t, i) {
      FirstExtended(t, packet, i);
    }
    forall k | 0 <= k < |idx| ensures Stored(u, m, idx[k], r.incoming[k]) {
      assert Stored(t, m, idx[k], r.incoming[k]);
    }
    forall k, n: nat | 0 <= k < |idx|
      ensures KeptAt(u, idx[k], r.incoming[k], n) <==> KeptAt(t, idx[k], r.incoming[k], n)
    {
      assert Stored(t, m, idx[k], r.incoming[k]);
    }
  }

  lemma SendKeeps(y: System, idx: seq<nat>, q: nat, packet: seq<byte>, limit: nat)
    requires Good(y, idx, q)
    ensures Good(SendPacket(y, packet, limit), idx, q)
  {
    hide Sends, Receives, Kept, Wire, Win, Unacked, Pieces, First, HeadReady;
    var z := SendPacket(y, packet, limit);
    if z != y {
      var t, last := y.sent, Base(y.sent, |y.sent.packets|);
      ReceivesFacts(t, y.receiver, idx, |y.receiver.dispatched|);
      KeptExtended(t, packet, y.receiver, idx, |y.receiver.dispatched|);
      FirstExtended(t, packet, |t.packets|);
      FirstExtended(t, packet, |y.receiver.dispatched|);
      FirstLast(t, packet);
      EnqueuePiecesKeeps(y.sender, q, y.newest, last, |packet|, t.fl, Pieces(|packet|, t.fl));
      SendsBounds(z.sender, q, y.newest, last + Pieces(|packet|, t.fl));
      assert Sending(z, q) && SizesOk(z.sent) && Receiving(z, idx);
      ExtendedKept(y, z, packet, idx);
    }
  }

  lemma ExtendedKept(y: System, z: System, packet: seq<byte>, idx: seq<nat>)
    requires y.receiver == z.receiver && z.sent == y.sent.(packets := y.sent.packets + [packet])
    requires Receives(y.sent, y.receiver, idx, |y.receiver.dispatched|)
    ensures Reached(y) == Reached(z)
    ensures forall n: nat :: KeptIn(z, idx, n) <==> KeptIn(y, idx, n)
  {
    KeptExtended(y.sent, packet, y.receiver, idx, |y.receiver.dispatched|);
    FirstExtended(y.sent, packet, |y.receiver.dispatched|);
  }

  lemma SameKept(y: System, z: System, idx: seq<nat>)
    requires y.receiver == z.receiver && z.sent == y.sent
    ensures Reached(y) == Reached(z)
    ensures forall n: nat :: KeptIn(z, idx, n) <==> KeptIn(y, idx, n)
  {
  }

  lemma FirstLast(t: Sent, packet: seq<byte>)
    ensures var u := t.(packets := t.packets + [packet]);
            First(u, |t.packets| + 1) == First(t, |t.packets|) + Pieces(|packet|, t.fl)
    ensures First(t, |t.packets|) >= 1
  {
    FirstExtended(t, packet, |t.packets|);
    FirstMono(t, 0, |t.packets|);
  }

  // ----- a command goes out

  /** The newest number never gets more than seven windows ahead: it could only do so by
      starting a new window while the one before, seven ahead of the receiver's, is all
      unacknowledged, because nothing so far ahead is ever acknowledged. */
  lemma GateKeepsClose(y: System, idx: seq<nat>)
    requires Good(y, idx, 0) && |y.sender.outgoing| > 0 && !HeldBack(y.sender, y.sender.outgoing[0])
    ensures Win(y.newest + 1) <= Win(Reached(y)) + 7
  {
    hide Sends, Receives, Kept, Wire, Win, Unacked, Pieces, First, HeadReady, Base, HeldBack, Reached;
    WinNext(y.newest);
    if Win(y.newest + 1) > Win(Reached(y)) + 7 {
      NextWindowStarts(y.newest);
      var w := Win(y.newest + 1);
      forall n | WINDOW_SIZE * (w - 1) <= n < WINDOW_SIZE * w ensures n in Unacked(y.sender, 0) {
        WindowNumbers(w - 1, n);
      }
      NextIsHead(y.sender, y.newest, Base(y.sent, |y.sent.packets|));
      FullWindowHoldsBack(y.sender, y.newest, Base(y.sent, |y.sent.packets|), w);
    }
  }

  lemma NextIsHead(s: Sender, newest: nat, last: nat)
    requires Sends(s, 0, newest, last) && |s.outgoing| > 0
    ensures s.outgoing[0].n == newest + 1
  {
  }

  lemma AttemptsTell(s: Sender, q: nat, newest: nat, last: nat)
    requires Sends(s, q, newest, last) && |s.outgoing| > 0
    ensures s.outgoing[0].attempts < 1 <==> q == 0
  {
  }

  lemma TransmitKeeps(y: System, idx: seq<nat>, q: nat, throttle: nat, windowSize: nat, mtu: nat)
    returns (q': nat)
    requires Good(y, idx, q) && Enabled(y, Transmit(throttle, windowSize, mtu))
    ensures Good(TransmitHead(y), idx, q')
  {
    hide Sends, Receives, Kept, Wire, Win, Unacked, Pieces, First, HeadReady, HeldBack, TransitLimit;
    var last := Base(y.sent, |y.sent.packets|);
    LimitBounded(throttle, windowSize, mtu);
    AttemptsTell(y.sender, q, y.newest, last);
    if q > 0 {
      q' := q - 1;
      ResendKeeps(y.sender, q, y.newest, last);
    } else {
      q' := 0;
      GateKeepsClose(y, idx);
      FirstSendKeeps(y.sender, y.newest, last);
    }
    SameKept(y, TransmitHead(y), idx);
  }

  lemma LimitBounded(throttle: nat, windowSize: nat, mtu: nat)
    requires throttle <= PACKET_THROTTLE_SCALE && windowSize <= MAXIMUM_WINDOW_SIZE && mtu <= MAXIMUM_MTU
    ensures TransitLimit(throttle, windowSize, mtu) <= MAXIMUM_WINDOW_SIZE
  {
    MulLe(throttle, PACKET_THROTTLE_SCALE, windowSize);
  }

  lemma TimeOutKeeps(y: System, idx: seq<nat>, q: nat, expired: seq<bool>) returns (q': nat)
    requires Good(y, idx, q) && |expired| == |y.sender.sent|
    ensures Good(y.(sender := Expire(y.sender, expired)), idx, q')
  {
    hide Sends, Receives, Kept, Wire, Win, Unacked, Pieces, First, HeadReady, Select, TotalLength;
    q' := q + |Select(y.sender.sent, expired, true)|;
    ExpireKeeps(y.sender, q, y.newest, Base(y.sent, |y.sent.packets|), expired);
    SameKept(y, y.(sender := Expire(y.sender, expired)), idx);
  }

  // ----- a copy arrives

  lemma AheadBounded(n: nat, newest: nat, base: nat)
    requires n <= newest && Win(newest) <= Win(base) + 7
    ensures n < base + TWO16
  {
  }

  lemma CopyTaken(y: System, idx: seq<nat>, q: nat, n: nat, limit: nat, room: bool, blank: seq<byte>)
    returns (idx': seq<nat>)
    requires Good(y, idx, q) && Enabled(y, Deliver(n, room, blank))
    ensures var t, i := y.sent, OwnerOf(y.sent, |y.sent.packets|, n);
            var (s, ok) := HandleCopy(t, y.receiver, n, limit, room, blank);
            && Took(t, y.receiver, idx, |y.receiver.dispatched|, n, First(t, i), s, ok, idx', |s.dispatched|)
            && First(t, i) <= n
            && (|t.packets[i]| <= limit && room ==> ok)
  {
    hide Sends, Kept, Wire, Win, Unacked, First, HandleReliable, HandleFragment, PieceFragment, HeadReady;
    var t, i, m := y.sent, OwnerOf(y.sent, |y.sent.packets|, n), |y.receiver.dispatched|;
    ReceivesFacts(t, y.receiver, idx, m);
    AheadBounded(First(t, i), y.newest, Base(t, m));
    var m': nat;
    OwnsNumber(t, i, n);
    if |t.packets[i]| <= t.fl {
      idx', m' := ReliableKeeps(t, y.receiver, idx, m, i, limit, room);
    } else {
      idx', m' := FragmentKeeps(t, y.receiver, idx, m, i, n - First(t, i), limit, room, blank);
    }
  }

  lemma OwnsNumber(t: Sent, i: nat, n: nat)
    requires Owns(t, i, n)
    ensures n - First(t, i) < Pieces(|t.packets[i]|, t.fl)
    ensures |t.packets[i]| <= t.fl ==> n == First(t, i)
  {
  }

  /** What an acknowledgement just sent means. */
  lemma AckedMeans(n: nat, newest: nat, base: nat)
    requires n <= newest && Win(newest) <= Win(base) + 7 && !Unacknowledged(Wire(n), Wire(base))
    ensures Win(n) <= Win(base) + 6
  {
    hide Unacknowledged, Wire;
    WinMono(n, newest);
    if Win(base) < Win(n) {
      if n < base {
        WinMono(n, base);
      }
      AheadBounded(n, newest, base);
      UnacknowledgedExactly(n, base);
    }
  }

  lemma DeliverKeeps(y: System, idx: seq<nat>, q: nat, n: nat, limit: nat, room: bool, blank: seq<byte>)
    returns (idx': seq<nat>)
    requires Good(y, idx, q) && Enabled(y, Deliver(n, room, blank))
    ensures Good(DeliverCopy(y, n, limit, room, blank), idx', q)
  {
    hide Sends, Kept, Wire, Win, Unacked, First, HandleCopy, HeadReady, Unacknowledged;
    idx' := CopyTaken(y, idx, q, n, limit, room, blank);
    var t, m := y.sent, |y.receiver.dispatched|;
    var z := DeliverCopy(y, n, limit, room, blank);
    var m' := |z.receiver.dispatched|;
    ReceivesFacts(t, z.receiver, idx', m');
    BaseMono(t, m, m');
    forall k: nat | k >= 1 && KeptIn(z, idx', k) ensures k <= z.newest {
      assert k != n ==> KeptIn(y, idx, k);
    }
    ReachedKept(z, idx');
    forall a | a in z.acked ensures KeptIn(z, idx', a) && Win(a) <= Win(Reached(z)) + 6 {
      if a in y.acked {
        assert KeptIn(y, idx, a);
      } else {
        AckedMeans(n, z.newest, Reached(z));
        WinMono(First(t, OwnerOf(t, |t.packets|, n)), n);
      }
    }
    assert Close(z);

  }

  lemma BaseMono(t: Sent, m: nat, m': nat)
    requires m <= m' <= |t.packets|
    ensures Base(t, m) <= Base(t, m') && Win(Base(t, m)) <= Win(Base(t, m'))
  {
    FirstMono(t, m, m');
    WinMono(Base(t, m), Base(t, m'));
  }

  lemma ReachedKept(y: System, idx: seq<nat>)
    requires |y.receiver.dispatched| <= |y.sent.packets|
    ensures KeptIn(y, idx, Reached(y))
  {
    FirstMono(y.sent, 0, |y.receiver.dispatched|);
  }

  // ----- an acknowledgement arrives

  lemma DeliverAckKeeps(y: System, idx: seq<nat>, q: nat, a: nat) returns (q': nat)
    requires Good(y, idx, q) && a in y.acked && AckFresh(y, a)
    ensures Good(y.(sender := Acknowledge(y.sender, Wire(a))), idx, q')
  {
    hide Sends, Receives, Kept, Wire, Win, Unacked, Pieces, First, HeadReady, Acknowledge;
    var z := y.(sender := Acknowledge(y.sender, Wire(a)));
    q' := AfterAck(y.sender, q, Wire(a));
    AcknowledgeKeeps(y.sender, q, y.newest, Base(y.sent, |y.sent.packets|), a);
    SendsBounds(z.sender, q', y.newest, Base(y.sent, |y.sent.packets|));
    AcknowledgeTransit(y.sender, Wire(a));
    SameKept(y, z, idx);
    forall n: nat | 1 <= n <= y.newest && n !in Unacked(z.sender, q') ensures n in y.acked {
      if n != a {
        assert Unacked(z.sender, q')[n] == Unacked(y.sender, q)[n];
      }
    }
  }

  lemma AcknowledgeTransit(s: Sender, number: u16)
    ensures Acknowledge(s, number).inTransit <= s.inTransit
  {
    hide FindSent, FindResend;
  }

  // ----- whole runs

  ghost predicate Step(y: System, z: System, limits: Limits) {
    exists act: Action :: Enabled(y, act) && z == Next(y, act, limits)
  }

  /** A run: any steps, in any order, from a new connection. */
  ghost predicate Run(run: seq<System>, fl: Length, limits: Limits) {
    && |run| > 0 && run[0] == Start(fl)
    && forall k :: 0 <= k < |run| - 1 ==> Step(run[k], run[k + 1], limits)
  }

  lemma StartGood(fl: Length)
    ensures Good(Start(fl), [], 0)
  {
    hide Sends, Win;
    Started();
    var y := Start(fl);
    assert Base(y.sent, 0) == 0;
    assert HeadReady(y.receiver) == false;
  }

  lemma StepKeeps(y: System, idx: seq<nat>, q: nat, act: Action, limits: Limits) returns (idx': seq<nat>, q': nat)
    requires Good(y, idx, q) && Enabled(y, act)
    ensures Good(Next(y, act, limits), idx', q')
  {
    hide Good, SendPacket, TransmitHead, DeliverCopy, Expire, Acknowledge;
    idx', q' := idx, q;
    match act
    case Send(packet) => SendKeeps(y, idx, q, packet, limits.sender);
    case Transmit(throttle, windowSize, mtu) => q' := TransmitKeeps(y, idx, q, throttle, windowSize, mtu);
    case TimeOut(expired) => q' := TimeOutKeeps(y, idx, q, expired);
    case Deliver(n, room, blank) => idx' := DeliverKeeps(y, idx, q, n, limits.receiver, room, blank);
    case DeliverAck(a) => HonestAck(y, idx, q, a); q' := DeliverAckKeeps(y, idx, q, a);
  }

  lemma HonestAck(y: System, idx: seq<nat>, q: nat, a: nat)
    requires Good(y, idx, q) && a in y.acked
    ensures 1 <= a <= y.newest
  {
  }

  /** Every state of every run satisfies the invariant. */
  lemma {:induction false} RunGood(run: seq<System>, fl: Length, limits: Limits, k: nat) returns (idx: seq<nat>, q: nat)
    requires Run(run, fl, limits) && k < |run|
    ensures Good(run[k], idx, q)
  {
    hide Good, Enabled, Next;
    if k == 0 {
      StartGood(fl);
      idx, q := [], 0;
    } else {
      idx, q := RunGood(run, fl, limits, k - 1);
      assert Step(run[k - 1], run[k - 1 + 1], limits);
      var act: Action :| Enabled(run[k - 1], act) && run[k] == Next(run[k - 1], act, limits);
      idx, q := StepKeeps(run[k - 1], idx, q, act, limits);
    }
  }

  // ----- what every run keeps

  lemma StepGrows(y: System, idx: seq<nat>, q: nat, act: Action, limits: Limits)
    requires Good(y, idx, q) && Enabled(y, act)
    ensures var z := Next(y, act, limits);
            y.sent.packets <= z.sent.packets && |y.receiver.dispatched| <= |z.receiver.dispatched|
  {
    hide Sends, Receives, Kept, Wire, Win, Unacked, Pieces, First, HeadReady, HandleCopy, Expire, Acknowledge,
         Honest, Close, Remembers;
    if act.Deliver? {
      var _ := CopyTaken(y, idx, q, act.n, limits.receiver, act.room, act.blank);
    }
  }

  lemma DispatchedIsPrefix(y: System, idx: seq<nat>, q: nat)
    requires Good(y, idx, q)
    ensures y.receiver.dispatched <= y.sent.packets
  {
  }

  /** Reliable delivery: what the receiver has dispatched is always a prefix of what was
      sent, each packet once, whole and in order; it only ever grows. */
  lemma {:induction false} ReliableDelivery(run: seq<System>, fl: Length, limits: Limits, j: nat, k: nat)
    requires Run(run, fl, limits) && j <= k < |run|
    ensures run[j].receiver.dispatched <= run[k].receiver.dispatched <= run[k].sent.packets
    ensures run[j].sent.packets <= run[k].sent.packets
  {
    hide Good, Enabled, Next;
    var idx, q := RunGood(run, fl, limits, k);
    DispatchedIsPrefix(run[k], idx, q);
    if j < k {
      ReliableDelivery(run, fl, limits, j, k - 1);
      idx, q := RunGood(run, fl, limits, k - 1);
      assert Step(run[k - 1], run[k - 1 + 1], limits);
      var act: Action :| Enabled(run[k - 1], act) && run[k] == Next(run[k - 1], act, limits);
      StepGrows(run[k - 1], idx, q, act, limits);
    }
  }

  ghost predicate InFlight(s: Sender, o: Out) {
    o in s.sent || (o in s.outgoing && o.attempts >= 1)
  }

  /** The windows of both ends stay together: the newest number sent is at most seven
      windows ahead of the receiver's, and every command sent and not acknowledged lies
      in the seven windows that end with the newest one, under its own wire number. */
  lemma WindowsStayTogether(run: seq<System>, fl: Length, limits: Limits, k: nat)
    requires Run(run, fl, limits) && k < |run|
    ensures var y := run[k];
            && Reached(y) <= y.newest && Win(y.newest) <= Win(Reached(y)) + 7
            && forall o :: InFlight(y.sender, o) ==>
                 1 <= o.n <= y.newest && Win(y.newest) <= Win(o.n) + 6 && o.number == Wire(o.n)
  {
    hide Run, Reached, Win, Wire;
    var idx, q := RunGood(run, fl, limits, k);
    InFlightUnacked(run[k].sender, q, run[k].newest, Base(run[k].sent, |run[k].sent.packets|));
  }

  lemma InFlightUnacked(s: Sender, q: nat, newest: nat, last: nat)
    requires Sends(s, q, newest, last)
    ensures forall o :: InFlight(s, o) ==> o.n in Unacked(s, q) && o.number == Wire(o.n)
    ensures forall n :: n in Unacked(s, q) ==> exists o :: InFlight(s, o) && o.n == n
  {
    hide Wire, Win, InWindow, Numbers, TotalLength;
    NumbersMembers(s.sent);
    NumbersMembers(s.outgoing[..q]);
    forall o | InFlight(s, o) ensures o.n in Unacked(s, q) && o.number == Wire(o.n) {
      if o in s.sent {
        var i :| 0 <= i < |s.sent| && s.sent[i] == o;
        assert o.n in Numbers(s.sent);
      } else {
        var i :| 0 <= i < |s.outgoing| && s.outgoing[i] == o;
        assert i < q && s.outgoing[..q][i] == o;
        assert o.n in Numbers(s.outgoing[..q]);
      }
    }
    forall n | n in Unacked(s, q) ensures exists o :: InFlight(s, o) && o.n == n {
      if n in Numbers(s.sent) {
        var i :| 0 <= i < |s.sent| && s.sent[i].n == n;
        assert InFlight(s, s.sent[i]);
      } else {
        var i :| 0 <= i < q && s.outgoing[..q][i].n == n;
        assert InFlight(s, s.outgoing[i]);
      }
    }
  }

  /** Sequence number `n`'s data has been dispatched or is stored in the receiver's list. */
  ghost predicate Arrived(y: System, n: nat) {
    exists idx :: Receiving(y, idx) && KeptIn(y, idx, n)
  }

  /** Acknowledgements are sound and nothing is lost: a number is acknowledged only if
      its data has arrived; what is not acknowledged the sender still has in flight; so
      everything ever sent is at one end or the other. */
  lemma NothingIsLost(run: seq<System>, fl: Length, limits: Limits, k: nat)
    requires Run(run, fl, limits) && k < |run|
    ensures forall a :: a in run[k].acked ==> 1 <= a <= run[k].newest && Arrived(run[k], a)
    ensures forall n: nat :: 1 <= n <= run[k].newest && n !in run[k].acked ==>
              exists o :: InFlight(run[k].sender, o) && o.n == n
    ensures forall n: nat :: Arrived(run[k], n) ==> n <= run[k].newest
  {
    hide Run, Reached, Win, Wire, Sends, Receives, HeadReady, Kept, Unacked;
    var y := run[k];
    var idx, q := RunGood(run, fl, limits, k);
    InFlightUnacked(y.sender, q, y.newest, Base(y.sent, |y.sent.packets|));
    forall n: nat | Arrived(y, n) ensures n <= y.newest {
      var idx2 :| Receiving(y, idx2) && KeptIn(y, idx2, n);
      SameIndices(y, idx, idx2);
    }
  }

  /** The list determines which packets it holds. */
  lemma SameIndices(y: System, a: seq<nat>, b: seq<nat>)
    requires Receiving(y, a) && Receiving(y, b)
    ensures a == b
  {
    hide Kept, HeadReady, Pieces, First, Wire, Clear;
    var t, m, list := y.sent, |y.receiver.dispatched|, y.receiver.incoming;
    forall k | 0 <= k < |list| ensures a[k] == b[k] {
      assert Stored(t, m, a[k], list[k]) && Stored(t, m, b[k], list[k]);
      FirstMono(t, m, a[k]);
      FirstMono(t, m, b[k]);
      WireInjective(First(t, a[k]), First(t, b[k]));
      if a[k] < b[k] {
        FirstMono(t, a[k], b[k]);
      } else {
        FirstMono(t, b[k], a[k]);
      }
    }
  }

  /** Every accepted number less than seven windows ahead is acknowledged, however often
      it comes; so is a number already dispatched, until it is eight windows behind. */
  lemma AcceptedIsAcknowledged(run: seq<System>, fl: Length, limits: Limits, k: nat, n: nat, blank: seq<byte>)
    requires Run(run, fl, limits) && k < |run| && Enabled(run[k], Deliver(n, true, blank))
    requires var i := OwnerOf(run[k].sent, |run[k].sent.packets|, n);
             && |run[k].sent.packets[i]| <= limits.receiver
    ensures var y := run[k];
            var z := DeliverCopy(y, n, limits.receiver, true, blank);
            && (Reached(y) < n && Win(n) <= Win(Reached(y)) + 6 ==> n in z.acked && Arrived(z, n))
            && (Win(n) + 7 >= Win(Reached(y)) && n <= Reached(y) ==> n in z.acked && Arrived(z, n))
  {
    hide Run, Sends, Kept, Wire, Win, Unacked, First, HandleCopy, HeadReady, Unacknowledged, Remembers;
    var y := run[k];
    var idx, q := RunGood(run, fl, limits, k);
    var idx' := CopyTaken(y, idx, q, n, limits.receiver, true, blank);
    var jdx := DeliverKeeps(y, idx, q, n, limits.receiver, true, blank);
    var z := DeliverCopy(y, n, limits.receiver, true, blank);
    var i := OwnerOf(y.sent, |y.sent.packets|, n);
    WinMono(First(y.sent, i), n);
    AheadBounded(n, y.newest, Reached(z));
    BaseMono(y.sent, |y.receiver.dispatched|, |z.receiver.dispatched|);
    WinMono(Reached(z), y.newest);
    if Reached(y) < n {
      WinMono(Reached(y), n);
      UnacknowledgedExactly(n, Reached(z));
    } else if Win(n) + 7 >= Win(Reached(y)) {
      WinMono(n, Reached(y));
      UnacknowledgedExactly(n, Reached(z));
    }
  }

  /** The reliable data counted as in transit is what the sent commands carry, and never
      more than the largest window. */
  lemma TransitIsAccounted(run: seq<System>, fl: Length, limits: Limits, k: nat)
    requires Run(run, fl, limits) && k < |run|
    ensures run[k].sender.inTransit == TotalLength(run[k].sender.sent) <= MAXIMUM_WINDOW_SIZE
  {
    hide Run, TotalLength;
    var idx, q := RunGood(run, fl, limits, k);
  }

  /** In one step the receiver moves on by at most seven windows, and never back. */
  lemma ReachedMovesOn(run: seq<System>, fl: Length, limits: Limits, k: nat)
    requires Run(run, fl, limits) && k + 1 < |run|
    ensures Reached(run[k]) <= Reached(run[k + 1])
    ensures Win(Reached(run[k + 1])) <= Win(Reached(run[k])) + 7
  {
    hide Sending, Receiving, Honest, Remembers, SizesOk, Win, Enabled, Next, Reached, Run;
    var idx, q := RunGood(run, fl, limits, k);
    var idx', q' := RunGood(run, fl, limits, k + 1);
    ReliableDelivery(run, fl, limits, k, k + 1);
    NewestOnDelivery(run, fl, limits, k);
    ReachedGrows(run[k], run[k + 1], idx, idx', q, q');
    if Reached(run[k + 1]) != Reached(run[k]) {
      WinMono(Reached(run[k + 1]), run[k + 1].newest);
    }
  }

  lemma ReachedGrows(y: System, z: System, idx: seq<nat>, idx': seq<nat>, q: nat, q': nat)
    requires Good(y, idx, q) && Good(z, idx', q')
    requires y.sent.packets <= z.sent.packets && y.receiver.dispatched <= z.receiver.dispatched
    requires y.sent.fl == z.sent.fl
    ensures Reached(y) <= Reached(z)
    ensures y.receiver.dispatched == z.receiver.dispatched ==> Reached(y) == Reached(z)
  {
    FirstPrefix(y.sent, z.sent, |y.receiver.dispatched|);
    FirstMono(z.sent, |y.receiver.dispatched|, |z.receiver.dispatched|);
  }

  /** The numbers of the first packets do not depend on the later ones. */
  lemma {:induction false} FirstPrefix(t: Sent, u: Sent, i: nat)
    requires t.fl == u.fl && t.packets <= u.packets && i <= |t.packets|
    ensures First(t, i) == First(u, i)
  {
    if i > 0 {
      FirstPrefix(t, u, i - 1);
    }
  }

  /** A step that dispatches anything sends nothing; and none changes the fragment length. */
  lemma NewestOnDelivery(run: seq<System>, fl: Length, limits: Limits, k: nat)
    requires Run(run, fl, limits) && k + 1 < |run|
    ensures run[k].sent.fl == run[k + 1].sent.fl
    ensures run[k].receiver.dispatched == run[k + 1].receiver.dispatched || run[k].newest == run[k + 1].newest
  {
    hide HandleCopy, EnqueuePieces, SendHead, Expire, Acknowledge, MaySend, DataFresh;
    assert Step(run[k], run[k + 1], limits);
    var act: Action :| Enabled(run[k], act) && run[k + 1] == Next(run[k], act, limits);
  }
}
