/**
 What happens without the assumptions on the network: for each of them a run that keeps all
 the others, and that ends with a packet dispatched twice, a command lost, or a packet that
 overtakes those it was sent after.
 */
module NetworkAssumptions {
  import opened Words
  import opened ReliableWindows
  import opened ReliableReceiver
  import opened ReceiverInvariant
  import opened ReliableSender
  import opened ReliableProtocol
  import Channel = ChannelProtocol
  import Queue = UnreliableQueue
  import Order = UnreliableOrder
  import Delivery = UnreliableDelivery

  const ONE: Limits := Limits(1, 1)

  /** Steps, from any state. */
  ghost predicate Path(path: seq<System>) {
    |path| > 0 && forall k :: 0 <= k < |path| - 1 ==> Step(path[k], path[k + 1], ONE)
  }

  lemma PathJoin(a: seq<System>, b: seq<System>)
    requires Path(a) && Path(b) && a[|a| - 1] == b[0]
    ensures Path(a + b[1..])
  {
    hide Step;
    var c := a + b[1..];
    forall k | 0 <= k < |c| - 1 ensures Step(c[k], c[k + 1], ONE) {
      if k >= |a| - 1 {
        var l := k - (|a| - 1);
        assert c[k] == b[l] && c[k + 1] == b[l + 1];
      } else {
        assert Step(a[k], a[k + 1], ONE);
      }
    }
  }

  lemma PathStep(y: System, act: Action)
    requires Enabled(y, act)
    ensures Path([y, Next(y, act, ONE)])
  {
    hide Enabled, Next;
    var path := [y, Next(y, act, ONE)];
    assert Step(path[0], path[0 + 1], ONE);
  }

  // ----- one packet after the other, each acknowledged before the next

  function Same(k: nat): seq<seq<byte>> {
    seq(k, _ => [0])
  }

  function SentSame(k: nat): Sent {
    Sent(Same(k), 1)
  }

  function Zeros(): Counters {
    seq(16, _ => 0)
  }

  /** `k` packets sent, dispatched and acknowledged, and the receiver has a list left over. */
  ghost function Idle(k: nat, list: seq<Incoming>): System {
    System(SentSame(k), Sender(Wire(k), [], [], Zeros(), {}, 0), k, Receiver(Wire(k), list, Same(k)),
           Upto(k))
  }

  function Upto(k: nat): set<nat> {
    if k == 0 then {} else Upto(k - 1) + {k}
  }

  lemma {:induction false} InUpto(k: nat, n: nat)
    ensures n in Upto(k) <==> 1 <= n <= k
  {
    if k > 0 {
      InUpto(k - 1, n);
    }
  }

  ghost function Queued(k: nat, list: seq<Incoming>): System {
    Idle(k, list).(sent := SentSame(k + 1), sender := Enqueue(Idle(k, list).sender, k + 1, 1))
  }

  ghost function OnTheWay(k: nat, list: seq<Incoming>): System {
    Queued(k, list).(sender := SendHead(Queued(k, list).sender), newest := k + 1)
  }

  lemma {:induction false} SameFirst(k: nat, i: nat)
    requires i <= k
    ensures First(SentSame(k), i) == 1 + i
  {
    if i > 0 {
      SameFirst(k, i - 1);
    }
  }

  lemma SendNext(k: nat, list: seq<Incoming>)
    ensures Next(Idle(k, list), Send([0]), ONE) == Queued(k, list)
  {
    SameFirst(k, k);
    var s := Idle(k, list).sender;
    assert Same(k) + [[0]] == Same(k + 1);
    assert EnqueuePieces(s, k + 1, 1, 1, 0) == s;
  }

  lemma TransmitNext(k: nat, list: seq<Incoming>)
    ensures Enabled(Queued(k, list), Transmit(32, 4096, 4096))
    ensures Next(Queued(k, list), Transmit(32, 4096, 4096), ONE) == OnTheWay(k, list)
  {
    hide Wire, U16;
  }

  /** The acknowledgement arrives. */
  lemma AcknowledgeNext(k: nat, list: seq<Incoming>)
    ensures Acknowledge(OnTheWay(k, list).sender, Wire(k + 1)) == Idle(k + 1, list).sender
  {
    WireNext(k);
    hide Wire;
    var s, w := OnTheWay(k, list).sender, Wire(k + 1) / WINDOW_SIZE;
    assert s.sent == [Out(Wire(k + 1), k + 1, 1, 1)] && s.outgoing == [];
    assert Without(s.sent, 0) == [];
    assert s.windows[w := 0] == Zeros();
  }

  /** What the receiver has when the next packet was handled. */
  ghost function Handled(k: nat, list: seq<Incoming>): System {
    OnTheWay(k, list).(receiver := Receiver(Wire(k + 1), list, Same(k + 1)), acked := Upto(k + 1))
  }

  lemma AckNext(k: nat, list: seq<Incoming>)
    ensures Enabled(Handled(k, list), DeliverAck(k + 1))
    ensures Next(Handled(k, list), DeliverAck(k + 1), ONE) == Idle(k + 1, list)
  {
    hide Acknowledge, Wire, SendHead;
    AcknowledgeNext(k, list);
    InUpto(k + 1, k + 1);
  }

  /** The next number is in the current window or the one after it. */
  lemma NextJudged(k: nat)
    ensures Accepted(Wire(k + 1), Wire(k)) && Wire(k + 1) != Wire(k)
    ensures !Unacknowledged(Wire(k + 1), Wire(k + 1))
  {
    AheadExact(k + 1, k);
  }

  lemma CopyIs(k: nat, r: Receiver, n: nat)
    requires 1 <= n <= k
    ensures n < First(SentSame(k), k) && OwnerOf(SentSame(k), k, n) == n - 1
    ensures HandleCopy(SentSame(k), r, n, 1, true, [0]) == HandleReliable(r, Wire(n), [0], 1, true)
  {
    hide HandleReliable, Wire;
    SameFirst(k, k);
    var i := OwnerOf(SentSame(k), k, n);
    SameFirst(k, i);
    SameFirst(k, i + 1);
  }

  /** The new command's copy may arrive, and the receiver handles it. */
  lemma DeliverEnabled(k: nat, list: seq<Incoming>)
    ensures var y, act := OnTheWay(k, list), Deliver(k + 1, true, [0]);
            && Enabled(y, act)
            && Next(y, act, ONE).receiver == HandleReliable(y.receiver, Wire(k + 1), [0], 1, true).0
            && Next(y, act, ONE).sent == y.sent
  {
    hide HandleReliable, Wire, Unacknowledged, SendHead, HandleCopy, OwnerOf, First;
    CopyIs(k + 1, OnTheWay(k, list).receiver, k + 1);
  }

  lemma DeliverNext(k: nat, list: seq<Incoming>)
    requires HandleReliable(Idle(k, list).receiver, Wire(k + 1), [0], 1, true)
          == (Receiver(Wire(k + 1), list, Same(k + 1)), true)
    ensures Enabled(OnTheWay(k, list), Deliver(k + 1, true, [0]))
    ensures Next(OnTheWay(k, list), Deliver(k + 1, true, [0]), ONE) == Handled(k, list)
  {
    hide HandleReliable, Wire, Unacknowledged, SendHead, HandleCopy, OwnerOf, First;
    CopyIs(k + 1, OnTheWay(k, list).receiver, k + 1);
    NextJudged(k);
  }

  /** Four steps take one packet across. */
  lemma Cycle(k: nat, list: seq<Incoming>) returns (path: seq<System>)
    requires HandleReliable(Idle(k, list).receiver, Wire(k + 1), [0], 1, true)
          == (Receiver(Wire(k + 1), list, Same(k + 1)), true)
    ensures Path(path) && |path| > 1 && path[0] == Idle(k, list) && path[|path| - 1] == Idle(k + 1, list)
  {
    hide HandleReliable, Path, Next, Enabled, Idle, Queued, OnTheWay, Handled;
    path := HalfCycle(k, list);
    DeliverNext(k, list);
    PathStep(OnTheWay(k, list), Deliver(k + 1, true, [0]));
    PathJoin(path, [OnTheWay(k, list), Handled(k, list)]);
    path := path + [OnTheWay(k, list), Handled(k, list)][1..];
    AckNext(k, list);
    PathStep(Handled(k, list), DeliverAck(k + 1));
    PathJoin(path, [Handled(k, list), Idle(k + 1, list)]);
    path := path + [Handled(k, list), Idle(k + 1, list)][1..];
  }

  /** Two of them put it on the way. */
  lemma HalfCycle(k: nat, list: seq<Incoming>) returns (path: seq<System>)
    ensures Path(path) && |path| == 3 && path[0] == Idle(k, list) && path[2] == OnTheWay(k, list)
  {
    hide Path, Next, Enabled, Idle, Queued, OnTheWay;
    SendEnabled(k, list);
    SendNext(k, list);
    TransmitNext(k, list);
    PathStep(Idle(k, list), Send([0]));
    PathStep(Queued(k, list), Transmit(32, 4096, 4096));
    PathJoin([Idle(k, list), Queued(k, list)], [Queued(k, list), OnTheWay(k, list)]);
    path := [Idle(k, list), Queued(k, list)] + [Queued(k, list), OnTheWay(k, list)][1..];
  }

  lemma SendEnabled(k: nat, list: seq<Incoming>)
    ensures Enabled(Idle(k, list), Send([0]))
  {
  }

  /** A packet that comes in sequence is dispatched as it comes, and so is what the list
      holds if it comes next. */
  lemma DispatchedAtOnce(k: nat, list: seq<Incoming>)
    requires PlaceOf(list, |list|, Wire(k + 1), Wire(k)) == Before(0)
    ensures HandleReliable(Idle(k, list).receiver, Wire(k + 1), [0], 1, true)
         == (Dispatch(Receiver(Wire(k + 1), list, Same(k + 1))), true)
  {
    NextJudged(k);
    WireNext(k);
    hide Wire, Accepted, PlaceOf, Dispatch;
    var c := Incoming(Wire(k + 1), 0, 0, [], [0]);
    assert Insert(list, 0, c) == [c] + list && ([c] + list)[1..] == list;
    assert Same(k) + [[0]] == Same(k + 1);
    HeadGoes(Receiver(Wire(k), [c] + list, Same(k)));
  }

  lemma HeadGoes(r: Receiver)
    requires HeadReady(r)
    ensures Dispatch(r)
         == Dispatch(Receiver(LastNumber(r.incoming[0]), r.incoming[1..], r.dispatched + [r.incoming[0].data]))
  {
  }

  lemma NoList(k: nat)
    ensures PlaceOf([], 0, Wire(k + 1), Wire(k)) == Before(0)
    ensures Dispatch(Receiver(Wire(k + 1), [], Same(k + 1))) == Receiver(Wire(k + 1), [], Same(k + 1))
  {
    hide Wire;
  }

  lemma {:induction false} Reaches(k: nat) returns (run: seq<System>)
    ensures Run(run, 1, ONE) && Path(run) && |run| > 0 && run[0] == Start(1) && run[|run| - 1] == Idle(k, [])
  {
    if k == 0 {
      run := [Start(1)];
      StartsIdle();
    } else {
      run := Reaches(k - 1);
      DispatchedAtOnce(k - 1, []);
      NoList(k - 1);
      var path := Cycle(k - 1, []);
      PathJoin(run, path);
      run := run + path[1..];
    }
  }

  lemma StartsIdle()
    ensures Idle(0, []) == Start(1)
  {
    assert Same(0) == [];
  }

  // ----- a stale copy of data

  /** A copy of a command the receiver has passed less than a round ago changes anything
      exactly when it comes ten or more windows late and finds its place free. */
  lemma StaleTakenExactly(r: Receiver, n: nat, base: nat, data: seq<byte>, maximumPacketSize: nat)
    requires r.number == Wire(base) && n < base < n + TWO16 && |data| <= maximumPacketSize
    ensures HandleReliable(r, Wire(n), data, maximumPacketSize, true).0 != r <==>
              Win(base) >= Win(n) + 10 && PlaceOf(r.incoming, |r.incoming|, Wire(n), r.number).Before?
  {
    hide Wire, Accepted, PlaceOf, Win;
    StaleAcceptedExactly(n, base);
    if Wire(n) == Wire(base) {
      WireInjective(n, base);
    }
    match PlaceOf(r.incoming, |r.incoming|, Wire(n), r.number)
    case Existing(_) =>
    case Before(i) =>
      var c := Incoming(Wire(n), 0, 0, [], data);
      DispatchTotal(r.(incoming := Insert(r.incoming, i, c)));
  }

  /** Dispatching loses nothing. */
  lemma {:induction false} DispatchTotal(r: Receiver)
    ensures var d := Dispatch(r); |d.incoming| + |d.dispatched| == |r.incoming| + |r.dispatched|
    decreases |r.incoming|
  {
    if HeadReady(r) {
      DispatchTotal(Receiver(LastNumber(r.incoming[0]), r.incoming[1..], r.dispatched + [r.incoming[0].data]));
    }
  }

  const FAR: nat := 40960
  const ROUND: nat := 65536

  /** The first command as a stale copy brings it. */
  const STALE := Incoming(1, 0, 0, [], [0])

  lemma StaleWaits(k: nat)
    requires FAR <= k && k + 1 < ROUND
    ensures PlaceOf([STALE], 1, Wire(k + 1), Wire(k)) == Before(0)
    ensures var r := Receiver(Wire(k + 1), [STALE], Same(k + 1)); Dispatch(r) == r
  {
  }

  lemma StaleDispatched()
    ensures PlaceOf([STALE], 1, Wire(ROUND), Wire(ROUND - 1)) == Before(0)
    ensures Dispatch(Receiver(Wire(ROUND), [STALE], Same(ROUND))) == Receiver(1, [], Same(ROUND + 1))
  {
    assert [STALE][1..] == [];
    assert Same(ROUND) + [[0]] == Same(ROUND + 1);
    assert HeadReady(Receiver(Wire(ROUND), [STALE], Same(ROUND)));
  }

  lemma StaleStored()
    ensures HandleReliable(Idle(FAR, []).receiver, 1, [0], 1, true) == (Receiver(Wire(FAR), [STALE], Same(FAR)), true)
  {
    assert Insert([], 0, STALE) == [STALE];
    assert !HeadReady(Receiver(Wire(FAR), [STALE], Same(FAR)));
  }

  lemma {:induction false} StaleStays(k: nat) returns (path: seq<System>)
    requires FAR <= k < ROUND
    ensures Path(path) && |path| > 0 && path[0] == Idle(FAR, [STALE]) && path[|path| - 1] == Idle(k, [STALE])
  {
    hide Path, Idle, HandleReliable, PlaceOf;
    if k == FAR {
      path := [Idle(FAR, [STALE])];
      PathOne(Idle(FAR, [STALE]));
    } else {
      path := StaleStays(k - 1);
      StaleWaits(k - 1);
      DispatchedAtOnce(k - 1, [STALE]);
      var cycle := Cycle(k - 1, [STALE]);
      PathJoin(path, cycle);
      path := path + cycle[1..];
    }
  }

  lemma PathOne(y: System)
    ensures Path([y])
  {
  }

  /** A copy as the network may deliver it, but that it is stale. */
  ghost predicate Late(y: System, n: nat, blank: seq<byte>) {
    && 1 <= n <= y.newest && n < First(y.sent, |y.sent.packets|) && !DataFresh(y, n)
    && |blank| == |y.sent.packets[OwnerOf(y.sent, |y.sent.packets|, n)]|
  }

  lemma FirstIsLate()
    ensures Late(Idle(FAR, []), 1, [0])
    ensures DeliverCopy(Idle(FAR, []), 1, 1, true, [0]) == Idle(FAR, [STALE])
  {
    hide HandleReliable, HandleCopy, Unacknowledged;
    SameFirst(FAR, 0);
    SameFirst(FAR, FAR);
    CopyIs(FAR, Idle(FAR, []).receiver, 1);
    StaleStored();
    InUpto(FAR, 1);
    assert Upto(FAR) + {1} == Upto(FAR);
  }

  /** The last packet of the round comes in, and after it the stale copy. */
  lemma RoundEnds() returns (path: seq<System>)
    ensures Path(path) && |path| > 0 && path[0] == Idle(ROUND - 1, [STALE])
    ensures var z := path[|path| - 1]; |z.receiver.dispatched| == ROUND + 1 && |z.sent.packets| == ROUND
  {
    hide Path, HandleReliable, PlaceOf, Next, Enabled;
    path := HalfCycle(ROUND - 1, [STALE]);
    var y, act := OnTheWay(ROUND - 1, [STALE]), Deliver(ROUND, true, [0]);
    DeliverEnabled(ROUND - 1, [STALE]);
    StaleDispatched();
    DispatchedAtOnce(ROUND - 1, [STALE]);
    PathStep(y, act);
    PathJoin(path, [y, Next(y, act, ONE)]);
    path := path + [y, Next(y, act, ONE)][1..];
  }

  /** Without the first assumption a packet is dispatched twice. A run of 40960 packets;
      then a copy of the first command arrives, ten windows late, and is stored; and after
      it, with all assumptions kept, the sequence numbers come round to it. */
  lemma StaleCopyDispatchedAgain() returns (before: seq<System>, after: seq<System>)
    ensures Run(before, 1, ONE) && |before| > 0 && Path(after) && |after| > 0
    ensures var y := before[|before| - 1]; Late(y, 1, [0]) && after[0] == DeliverCopy(y, 1, 1, true, [0])
    ensures var z := after[|after| - 1]; |z.receiver.dispatched| == ROUND + 1 && |z.sent.packets| == ROUND
  {
    hide Path, Run, Idle, Late, DeliverCopy;
    before := Reaches(FAR);
    FirstIsLate();
    after := StaleStays(ROUND - 1);
    var path := RoundEnds();
    PathJoin(after, path);
    after := after + path[1..];
    RoundMoves(path);
  }

  lemma RoundMoves(path: seq<System>)
    requires |path| > 0 && path[0] == Idle(ROUND - 1, [STALE])
    requires |path[|path| - 1].receiver.dispatched| == ROUND + 1
    ensures |path| > 1
  {
  }

  // ----- a stale copy of an acknowledgement

  /** Without the second one a command is lost. After a round of packets, the next one is
      on the way; an acknowledgement of the first comes, and the sender forgets the new
      one, which nobody has acknowledged. */
  lemma StaleAckLosesCommand() returns (run: seq<System>)
    ensures Run(run, 1, ONE) && |run| > 0
    ensures var y := run[|run| - 1];
            var s := Acknowledge(y.sender, Wire(1));
            && 1 in y.acked && !AckFresh(y, 1)
            && y.newest == ROUND + 1 && y.newest !in y.acked && |y.receiver.dispatched| == ROUND
            && s.sent == [] && s.outgoing == []
  {
    hide Path, Run, Idle;
    run := Reaches(ROUND);
    var path := HalfCycle(ROUND, []);
    PathJoin(run, path);
    run := run + path[1..];
    RunFromStart(run);
    Forgotten();
  }

  lemma RunFromStart(run: seq<System>)
    requires Path(run) && |run| > 0 && run[0] == Start(1)
    ensures Run(run, 1, ONE)
  {
  }

  lemma Forgotten()
    ensures var y := OnTheWay(ROUND, []);
            var s := Acknowledge(y.sender, Wire(1));
            && 1 in y.acked && !AckFresh(y, 1)
            && y.newest == ROUND + 1 && y.newest !in y.acked && |y.receiver.dispatched| == ROUND
            && s.sent == [] && s.outgoing == []
  {
    hide Upto;
    InUpto(ROUND, 1);
    InUpto(ROUND, ROUND + 1);
    assert Wire(ROUND + 1) == Wire(1);
    var s := OnTheWay(ROUND, []).sender;
    assert s.sent == [Out(1, ROUND + 1, 1, 1)] && s.outgoing == [];
  }

  // ----- an unreliable packet out of its time

  /** The number in the round from `r` on that looks like `n`. */
  function LooksLike(n: nat, r: nat): (m: nat)
    ensures r <= m < r + TWO16
  {
    r + (n - r) % TWO16
  }

  lemma LooksTheSame(n: nat, r: nat)
    ensures Wire(LooksLike(n, r)) == Wire(n)
  {
    var d, q := (n - r) % TWO16, (n - r) / TWO16;
    assert n - r == q * TWO16 + d;
    assert LooksLike(n, r) == n - q * TWO16;
    SameRemainder(LooksLike(n, r), n, q);
  }

  lemma SameRemainder(m: nat, n: nat, q: int)
    requires m == n - q * TWO16
    ensures m % TWO16 == n % TWO16
  {
    var a, b := n / TWO16, n % TWO16;
    assert m == (a - q) * TWO16 + b;
  }

  /** Whatever reliable number a packet follows, however far behind or ahead: it is wanted
      exactly when the number it looks like is less than seven windows ahead and, if that is
      the one reached, its count is higher than the last one. */
  lemma WantedExactly(q: Queue.Queue, r: nat, e: Queue.Entry)
    requires q.number == Wire(r) && e.sequenced && Order.Labelled(e)
    ensures var m := LooksLike(e.n, r);
            Queue.Wanted(q, e.number, e.unreliable) <==>
              Win(m) <= Win(r) + 6 && !(m == r && e.unreliable <= q.unreliable)
  {
    hide Wire, Win, Queue.Wanted;
    var m := LooksLike(e.n, r);
    LooksTheSame(e.n, r);
    Delivery.WantedMeans(q, r, e.(n := m));
    WinMono(r, m);
  }

  // ----- packets queued faster than they are sent

  ghost function Waiting(k: nat): Sender {
    if k == 0 then Start(1).sender else Enqueue(Waiting(k - 1), k, 1)
  }

  ghost function Script(k: nat): seq<Channel.Event> {
    if k == 0 then [] else Script(k - 1) + Channel.Handed(SentSame(k), Same(k), k - 1, k)
  }

  /** `k` reliable packets given to the sender, and nothing sent. */
  ghost function Given(k: nat): Channel.System {
    Channel.System(Script(k), 0, Start(1).(sent := SentSame(k), sender := Waiting(k)), Delivery.START, [])
  }

  lemma GiveNext(k: nat)
    ensures var act := Channel.Reliably(Send([0]));
            Channel.Enabled(Given(k), act) && Channel.Next(Given(k), act, ONE) == Given(k + 1)
  {
    hide Channel.Handed, Queue.Advance;
    SameFirst(k, k);
    assert Same(k) + [[0]] == Same(k + 1);
    assert EnqueuePieces(Waiting(k), k + 1, 1, 1, 0) == Waiting(k);
  }

  lemma {:induction false} Gives(k: nat) returns (run: seq<Channel.System>)
    ensures Channel.Run(run, 1, ONE) && |run| > 0 && run[|run| - 1] == Given(k)
  {
    hide Given, Channel.Enabled, Channel.Next, Channel.Run;
    if k == 0 {
      run := [Given(0)];
      GivenNothing();
    } else {
      run := Gives(k - 1);
      GiveNext(k - 1);
      run := ChannelLonger(run, Channel.Reliably(Send([0])));
    }
  }

  lemma GivenNothing()
    ensures Channel.Run([Given(0)], 1, ONE)
  {
    assert Same(0) == [];
  }

  lemma ChannelLonger(run: seq<Channel.System>, act: Channel.Action) returns (longer: seq<Channel.System>)
    requires Channel.Run(run, 1, ONE) && |run| > 0 && Channel.Enabled(run[|run| - 1], act)
    ensures longer == run + [Channel.Next(run[|run| - 1], act, ONE)] && Channel.Run(longer, 1, ONE)
  {
    hide Channel.Enabled, Channel.Next;
    longer := run + [Channel.Next(run[|run| - 1], act, ONE)];
    forall k | 0 <= k < |longer| - 1 ensures Channel.Step(longer[k], longer[k + 1], ONE) {
      assert k < |run| - 1 ==> Channel.Step(run[k], run[k + 1], ONE);
    }
  }

  /** Without the third one a packet overtakes what it was sent after. A round of reliable
      packets waits to be sent; the unreliable packet given after them goes out, looks as if
      it followed none, and is dispatched before any of them. */
  lemma FarAheadOvertakes() returns (run: seq<Channel.System>, e: Queue.Entry)
    ensures Channel.Run(run, 1, ONE) && |run| > 0
    ensures var y := run[|run| - 1];
            && |y.reliable.sent.packets| == ROUND && e.n == ROUND && y.script == Script(ROUND) + [Channel.Packet(e)]
            && y.dispatched == [] && y.unreliable == Delivery.START
            && Queue.HandleUnreliable(y.unreliable.queue, e, true).dispatched == [e]
    ensures e.sequenced && Order.Labelled(e) && e.fragmentCount == 0 && !Delivery.Timely(e, 0)
  {
    hide Channel.Run, Script, Waiting;
    run := Gives(ROUND);
    var y := run[|run| - 1];
    e := Channel.NextPacket(y, 0, 0);
    FarNumber(y, e);
    run := ChannelLonger(run, Channel.SendUnreliable(0, 0));
    TakenAtOnce(e);
  }

  lemma FarNumber(y: Channel.System, e: Queue.Entry)
    requires y == Given(ROUND) && e == Channel.NextPacket(y, 0, 0)
    ensures e == Queue.Entry(true, 0, 1, 0, 0, [], 0, ROUND)
    ensures Order.Labelled(e) && !Delivery.Timely(e, 0)
  {
    hide Script, Waiting, First, Order.Labelled, Delivery.Timely;
    SameFirst(ROUND, ROUND);
    assert Wire(ROUND) == 0;
    FarUntimely(e);
  }

  lemma FarUntimely(e: Queue.Entry)
    requires e == Queue.Entry(true, 0, 1, 0, 0, [], 0, ROUND)
    ensures Order.Labelled(e) && !Delivery.Timely(e, 0)
  {
  }

  lemma TakenAtOnce(e: Queue.Entry)
    requires e == Queue.Entry(true, 0, 1, 0, 0, [], 0, ROUND)
    ensures Queue.HandleUnreliable(Delivery.START.queue, e, true).dispatched == [e]
  {
    var q := Delivery.START.queue;
    assert Queue.Insert([], 0, e) == [e] && [e][0..1] == [e];
    var s := Queue.Scan(0, 0, 0, []);
    assert Queue.Pass([e], 0, 1, s.(unreliable := 1)) == Queue.Finish([e], 1, s.(unreliable := 1));
    assert Queue.Pass([e], 0, 0, s).moved == [e];
  }
}
