/**
 A channel with both its halves: reliable packets and unreliable ones are sent on it, cross
 the same network, and are dispatched into one queue for the application. Each half, seen
 alone, makes a run of its own.
 */
module ChannelProtocol {
  import opened Words
  import opened ReliableWindows
  import opened Fragments
  import opened ReceiverInvariant
  import opened UnreliableQueue
  import Reliable = ReliableProtocol
  import Unreliable = UnreliableDelivery

  /** What is sent and what is dispatched: a reliable packet, whose last command has number
      `n`, or a packet that is not reliable. */
  datatype Event = Command(n: nat, data: seq<byte>) | Packet(e: Entry)

  /** `script` is what the application sent, in order, but for unsequenced packets; `count`
      tells how many unreliable packets were numbered since the last reliable one. */
  datatype System = System(script: seq<Event>, count: nat, reliable: Reliable.System, unreliable: Unreliable.System,
    dispatched: seq<Event>)

  datatype Action =
    | Reliably(act: Reliable.Action)
    | SendUnreliable(packet: nat, fragmentCount: nat)
    | Arrive(arrival: Unreliable.Action)

  function Start(fl: Length): System {
    System([], 0, Reliable.Start(fl), Unreliable.START, [])
  }

  // ----- the steps

  /** The last number of the `k`th packet sent. */
  function Last(t: Sent, k: nat): nat {
    if k <= |t.packets| then Base(t, k) else 0
  }

  /** Reliable packets `from` to `to`, with the bytes they have in `data`. */
  function Handed(t: Sent, data: seq<seq<byte>>, from: nat, to: nat): seq<Event>
    requires from <= to <= |data|
  {
    if from == to then [] else Handed(t, data, from, to - 1) + [Command(Last(t, to), data[to - 1])]
  }

  function Packets(list: seq<Entry>): seq<Event> {
    if list == [] then [] else Packets(list[..|list| - 1]) + [Packet(list[|list| - 1])]
  }

  function Since(before: seq<Entry>, now: seq<Entry>): seq<Entry> {
    if |before| <= |now| then now[|before|..] else []
  }

  /** The reliable half has made a step to `z`. A packet it was given is part of the
      script. What it dispatches goes into the queue; then unreliable packets are counted
      anew, and those whose turn it has become follow. */
  ghost function AfterReliable(y: System, z: Reliable.System): System {
    var p, p' := |y.reliable.sent.packets|, |z.sent.packets|;
    var m, m' := |y.reliable.receiver.dispatched|, |z.receiver.dispatched|;
    var w := if p < p' then y.(script := y.script + Handed(z.sent, z.sent.packets, p, p'), count := 0) else y;
    if m < m' then
      var q := Advance(y.unreliable.queue, z.receiver.number);
      w.(reliable := z, unreliable := Unreliable.System(q, Reliable.Reached(z)),
         dispatched := y.dispatched + Handed(z.sent, z.receiver.dispatched, m, m')
           + Packets(Since(y.unreliable.queue.dispatched, q.dispatched)))
    else w.(reliable := z)
  }

  /** The next unreliable packet: it follows the last reliable command. */
  ghost function NextPacket(y: System, packet: nat, fragmentCount: nat): Entry
    requires y.count < 0xFFFF
  {
    var n := Last(y.reliable.sent, |y.reliable.sent.packets|);
    Entry(true, Wire(n), y.count + 1, fragmentCount, fragmentCount, seq(fragmentCount, _ => false), packet, n)
  }

  ghost function AfterArrival(y: System, u: Unreliable.System): System {
    y.(unreliable := u,
       dispatched := y.dispatched + Packets(Since(y.unreliable.queue.dispatched, u.queue.dispatched)))
  }

  /** What arrives was sent; but any unsequenced packet may arrive. */
  ghost predicate Enabled(y: System, act: Action) {
    match act
    case Reliably(a) => Reliable.Enabled(y.reliable, a)
    case SendUnreliable(_, _) => y.count < 0xFFFF
    case Arrive(a) =>
      Unreliable.Enabled(y.unreliable, a) && !a.MoveOn? && (a.Whole? || a.Fragment? ==> Packet(a.e) in y.script)
  }

  ghost function Next(y: System, act: Action, limits: Reliable.Limits): System
    requires Enabled(y, act)
  {
    match act
    case Reliably(a) => AfterReliable(y, Reliable.Next(y.reliable, a, limits))
    case SendUnreliable(packet, fragmentCount) =>
      y.(script := y.script + [Packet(NextPacket(y, packet, fragmentCount))], count := y.count + 1)
    case Arrive(a) => AfterArrival(y, Unreliable.Next(y.unreliable, a))
  }

  ghost predicate Step(y: System, z: System, limits: Reliable.Limits) {
    exists act: Action :: Enabled(y, act) && z == Next(y, act, limits)
  }

  ghost predicate Run(run: seq<System>, fl: Length, limits: Reliable.Limits) {
    && |run| > 0 && run[0] == Start(fl)
    && forall k :: 0 <= k < |run| - 1 ==> Step(run[k], run[k + 1], limits)
  }

  // ----- each half by itself

  /** What one step of the reliable half brings. */
  ghost predicate Moves(y: Reliable.System, z: Reliable.System) {
    && y.sent.packets <= z.sent.packets && y.sent.fl == z.sent.fl
    && y.receiver.dispatched <= z.receiver.dispatched <= z.sent.packets
    && Reliable.Reached(y) == Last(y.sent, |y.receiver.dispatched|)
    && Reliable.Reached(z) == Last(z.sent, |z.receiver.dispatched|)
    && z.receiver.number == Wire(Reliable.Reached(z))
    && Win(Reliable.Reached(z)) <= Win(Reliable.Reached(y)) + 7
    && (y.receiver.dispatched == z.receiver.dispatched ==> Reliable.Reached(y) == Reliable.Reached(z))
    && (y.receiver.dispatched != z.receiver.dispatched ==> Reliable.Reached(y) < Reliable.Reached(z))
  }

  lemma StepMoves(run: seq<Reliable.System>, fl: Length, limits: Reliable.Limits, k: nat)
    requires Reliable.Run(run, fl, limits) && k + 1 < |run|
    ensures Moves(run[k], run[k + 1])
  {
    hide Reliable.Run, Reliable.Good, Win, Wire, First;
    var y, z := run[k], run[k + 1];
    Reliable.ReachedMovesOn(run, fl, limits, k);
    Reliable.ReliableDelivery(run, fl, limits, k, k + 1);
    Reliable.ReliableDelivery(run, fl, limits, k, k);
    Reliable.NewestOnDelivery(run, fl, limits, k);
    var idx, q := Reliable.RunGood(run, fl, limits, k);
    var idx', q' := Reliable.RunGood(run, fl, limits, k + 1);
    NumberIsReached(z, idx', q');
    Reliable.ReachedGrows(y, z, idx, idx', q, q');
    Reliable.FirstPrefix(y.sent, z.sent, |y.receiver.dispatched|);
    FirstMono(z.sent, |y.receiver.dispatched|, |z.receiver.dispatched|);
  }

  lemma NumberIsReached(y: Reliable.System, idx: seq<nat>, q: nat)
    requires Reliable.Good(y, idx, q)
    ensures |y.receiver.dispatched| <= |y.sent.packets| && y.receiver.number == Wire(Reliable.Reached(y))
  {
    hide Wire, First, Holds;
  }

  /** In every run of a channel each half makes a run of its own, and they agree on the
      reliable number reached. */
  lemma {:induction false} Halves(run: seq<System>, fl: Length, limits: Reliable.Limits, k: nat)
    returns (rel: seq<Reliable.System>, unr: seq<Unreliable.System>)
    requires Run(run, fl, limits) && k < |run|
    ensures Reliable.Run(rel, fl, limits) && |rel| > 0 && rel[|rel| - 1] == run[k].reliable
    ensures Unreliable.Run(unr) && |unr| > 0 && unr[|unr| - 1] == run[k].unreliable
    ensures run[k].unreliable.reached == Reliable.Reached(run[k].reliable)
  {
    hide Reliable.Enabled, Unreliable.Enabled, Reliable.Next, Unreliable.Next, Reliable.Reached, Handed, Packets,
         Enabled, Next, Reliable.Start, Unreliable.Step, Reliable.Step;
    if k == 0 {
      StartsNowhere(fl);
      rel, unr := [run[0].reliable], [run[0].unreliable];
    } else {
      rel, unr := Halves(run, fl, limits, k - 1);
      assert Step(run[k - 1], run[k - 1 + 1], limits);
      var act: Action :| Enabled(run[k - 1], act) && run[k] == Next(run[k - 1], act, limits);
      rel, unr := HalvesStep(run[k - 1], act, fl, limits, rel, unr);
    }
  }

  lemma StartsNowhere(fl: Length)
    ensures Reliable.Reached(Reliable.Start(fl)) == 0
  {
  }

  lemma HalvesStep(y: System, act: Action, fl: Length, limits: Reliable.Limits,
      rel: seq<Reliable.System>, unr: seq<Unreliable.System>)
    returns (rel': seq<Reliable.System>, unr': seq<Unreliable.System>)
    requires Reliable.Run(rel, fl, limits) && |rel| > 0 && rel[|rel| - 1] == y.reliable
    requires Unreliable.Run(unr) && |unr| > 0 && unr[|unr| - 1] == y.unreliable
    requires y.unreliable.reached == Reliable.Reached(y.reliable) && Enabled(y, act)
    ensures var z := Next(y, act, limits);
            && Reliable.Run(rel', fl, limits) && |rel'| > 0 && rel'[|rel'| - 1] == z.reliable
            && Unreliable.Run(unr') && |unr'| > 0 && unr'[|unr'| - 1] == z.unreliable
            && z.unreliable.reached == Reliable.Reached(z.reliable)
            && (act.Reliably? ==> Moves(y.reliable, z.reliable))
  {
    hide Reliable.Enabled, Unreliable.Enabled, Reliable.Next, Reliable.Reached, Handed, Packets, Unreliable.Next,
         Moves, Win, Reliable.Run, Unreliable.Run, Reliable.Step, Unreliable.Step;
    rel', unr' := rel, unr;
    match act
    case SendUnreliable(_, _) =>
    case Arrive(a) =>
      ArrivalStays(y.unreliable, a);
      unr' := LongerUnreliable(unr, a);
    case Reliably(a) =>
      var z := Reliable.Next(y.reliable, a, limits);
      rel' := LongerReliable(rel, fl, limits, a);
      StepMoves(rel', fl, limits, |rel| - 1);
      MovesMeans(y.reliable, z);
      if |y.reliable.receiver.dispatched| < |z.receiver.dispatched| {
        MoveOnEnabled(y.unreliable, Reliable.Reached(z));
        unr' := LongerUnreliable(unr, Unreliable.MoveOn(Reliable.Reached(z)));
      }
  }

  lemma MovesMeans(y: Reliable.System, z: Reliable.System)
    requires Moves(y, z)
    ensures |y.receiver.dispatched| <= |z.receiver.dispatched|
    ensures if |y.receiver.dispatched| < |z.receiver.dispatched| then
              && Reliable.Reached(y) < Reliable.Reached(z)
              && Win(Reliable.Reached(z)) <= Win(Reliable.Reached(y)) + 9
              && z.receiver.number == Wire(Reliable.Reached(z))
            else Reliable.Reached(y) == Reliable.Reached(z)
  {
    hide Reliable.Reached, Win, Wire;
  }

  lemma ArrivalStays(u: Unreliable.System, a: Unreliable.Action)
    requires Unreliable.Enabled(u, a) && !a.MoveOn?
    ensures Unreliable.Next(u, a).reached == u.reached
  {
  }

  lemma MoveOnEnabled(u: Unreliable.System, r: nat)
    requires u.reached < r && Win(r) <= Win(u.reached) + 9
    ensures Unreliable.Enabled(u, Unreliable.MoveOn(r))
    ensures Unreliable.Next(u, Unreliable.MoveOn(r)) == Unreliable.System(Advance(u.queue, Wire(r)), r)
  {
  }

  lemma LongerReliable(rel: seq<Reliable.System>, fl: Length, limits: Reliable.Limits, act: Reliable.Action)
    returns (rel': seq<Reliable.System>)
    requires Reliable.Run(rel, fl, limits) && Reliable.Enabled(rel[|rel| - 1], act)
    ensures |rel| > 0 && rel' == rel + [Reliable.Next(rel[|rel| - 1], act, limits)]
    ensures Reliable.Run(rel', fl, limits)
  {
    hide Reliable.Enabled, Reliable.Next;
    rel' := rel + [Reliable.Next(rel[|rel| - 1], act, limits)];
    forall k | 0 <= k < |rel'| - 1 ensures Reliable.Step(rel'[k], rel'[k + 1], limits) {
      assert k < |rel| - 1 ==> Reliable.Step(rel[k], rel[k + 1], limits);
    }
  }

  lemma LongerUnreliable(unr: seq<Unreliable.System>, act: Unreliable.Action) returns (unr': seq<Unreliable.System>)
    requires Unreliable.Run(unr) && Unreliable.Enabled(unr[|unr| - 1], act)
    ensures |unr| > 0 && unr' == unr + [Unreliable.Next(unr[|unr| - 1], act)]
    ensures Unreliable.Run(unr')
  {
    hide Unreliable.Enabled, Unreliable.Next;
    unr' := unr + [Unreliable.Next(unr[|unr| - 1], act)];
    forall k | 0 <= k < |unr'| - 1 ensures Unreliable.Step(unr'[k], unr'[k + 1]) {
      assert k < |unr| - 1 ==> Unreliable.Step(unr[k], unr[k + 1]);
    }
  }
}
