/**
 What the application receives from one channel is what was sent on it, in the same order:
 over every run, reliable and unreliable packets come in the one order of their sending,
 and before a packet is dispatched all reliable packets sent before it have been.
 */
module ChannelOrder {
  import opened ReliableWindows
  import opened Fragments
  import opened ReceiverInvariant
  import opened UnreliableQueue
  import opened UnreliableOrigin
  import opened ChannelProtocol
  import opened EventOrder

  // ----- every run

  ghost function Labels(script: seq<Event>): set<Label> {
    set i | 0 <= i < |script| && script[i].Packet? :: LabelOf(script[i].e)
  }

  ghost predicate Good(y: System) {
    && ScriptOk(y.script, y.reliable.sent, y.count)
    && Delivers(y.dispatched, y.reliable.sent, |y.reliable.receiver.dispatched|, y.unreliable.queue.dispatched)
    && Within(y.unreliable.queue, Labels(y.script))
  }

  lemma MoreLabels(script: seq<Event>, more: seq<Event>)
    ensures Labels(script) <= Labels(script + more)
  {
    forall l | l in Labels(script) ensures l in Labels(script + more) {
      var i :| 0 <= i < |script| && script[i].Packet? && LabelOf(script[i].e) == l;
      assert (script + more)[i] == script[i];
    }
  }

  /** The facts about the unreliable half that a step needs. */
  lemma UnreliableGrows(unr: seq<Unreliable.System>, act: Unreliable.Action, t: Sent, m': nat)
    requires Unreliable.Run(unr) && Unreliable.Enabled(unr[|unr| - 1], act)
    requires Unreliable.Next(unr[|unr| - 1], act).reached == Last(t, m')
    ensures |unr| > 0
    ensures var u := unr[|unr| - 1];
            Grown(t, m', u.queue.dispatched, Unreliable.Next(u, act).queue.dispatched)
  {
    hide Order.Good, Unreliable.Enabled, Unreliable.Next, Last, Unreliable.Run, Order.Sorted;
    var unr' := LongerUnreliable(unr, act);
    Unreliable.RunGood(unr, |unr| - 1);
    Unreliable.StepKeeps(unr[|unr| - 1], act);
    Unreliable.OrderedAndOnce(unr', |unr|);
  }

  lemma SinceGrown(t: Sent, m: nat, before: seq<Entry>, now: seq<Entry>)
    requires m <= |t.packets| && before <= now
    ensures Added(t, m, m, before, now) == Packets(Since(before, now))
  {
  }

  lemma ArrivalKeeps(y: System, a: Unreliable.Action, fl: Length, limits: Reliable.Limits,
      rel: seq<Reliable.System>, unr: seq<Unreliable.System>)
    requires Good(y) && Enabled(y, Arrive(a))
    requires Reliable.Run(rel, fl, limits) && |rel| > 0 && rel[|rel| - 1] == y.reliable
    requires Unreliable.Run(unr) && |unr| > 0 && unr[|unr| - 1] == y.unreliable
    requires y.unreliable.reached == Last(y.reliable.sent, |y.reliable.receiver.dispatched|)
    ensures Good(Next(y, Arrive(a), limits))
  {
    hide Unreliable.Enabled, Unreliable.Next, Last, Delivers, ScriptOk, Within, Added, Packets, Since, Labels;
    var t, m := y.reliable.sent, |y.reliable.receiver.dispatched|;
    var q, d := y.unreliable.queue, Unreliable.Next(y.unreliable, a).queue;
    ArrivalStays(y.unreliable, a);
    UnreliableGrows(unr, a, t, m);
    DeliversBounds(y.dispatched, t, m, q.dispatched);
    DeliversMore(y.dispatched, t, m, m, q.dispatched, d.dispatched);
    SinceGrown(t, m, q.dispatched, d.dispatched);
    ArrivalWithin(y, a);
  }

  lemma DeliversBounds(list: seq<Event>, t: Sent, m: nat, packets: seq<Entry>)
    requires Delivers(list, t, m, packets)
    ensures m <= |t.packets|
  {
  }

  lemma ArrivalWithin(y: System, a: Unreliable.Action)
    requires Within(y.unreliable.queue, Labels(y.script)) && Enabled(y, Arrive(a))
    ensures Within(Unreliable.Next(y.unreliable, a).queue, Labels(y.script))
  {
    hide Within, HandleUnreliable, HandleFragment, HandleUnsequenced;
    var q, known := y.unreliable.queue, Labels(y.script);
    if a.Whole? || a.Fragment? {
      var i :| 0 <= i < |y.script| && y.script[i] == Packet(a.e);
      assert LabelOf(a.e) in known;
    }
    match a
    case Whole(e, room) => WholeWithin(q, e, room, known);
    case Fragment(e, index, room) => FragmentWithin(q, e, index, room, known);
    case Unsequenced(e, room) => UnsequencedWithin(q, e, room, known);
  }

  lemma SendUnreliableKeeps(y: System, packet: nat, fragmentCount: nat, limits: Reliable.Limits)
    requires Good(y) && y.count < 0xFFFF
    ensures Good(Next(y, SendUnreliable(packet, fragmentCount), limits))
  {
    hide Last, Delivers, ScriptOk, Within, Labels;
    var e := NextPacket(y, packet, fragmentCount);
    ScriptCounts(y.script, y.reliable.sent, y.count, e);
    MoreLabels(y.script, [Packet(e)]);
    MoreKnown(y.unreliable.queue, Labels(y.script), Labels(y.script + [Packet(e)]));
  }

  lemma ReliablyKeeps(y: System, z: Reliable.System, unr: seq<Unreliable.System>)
    requires Good(y) && Moves(y.reliable, z)
    requires Unreliable.Run(unr) && |unr| > 0 && unr[|unr| - 1] == y.unreliable
    requires y.unreliable.reached == Reliable.Reached(y.reliable)
    ensures Good(AfterReliable(y, z))
  {
    hide Last, Delivers, ScriptOk, Within, Labels, Handed, Packets, Since, Wire, Win, Advance;
    var w := AfterReliable(y, z);
    ScriptPart(y, z);
    MoreKnown(y.unreliable.queue, Labels(y.script), Labels(w.script));
    DeliversStays(y.dispatched, y.reliable.sent, z.sent, |y.reliable.receiver.dispatched|,
                  y.unreliable.queue.dispatched);
    if |y.reliable.receiver.dispatched| < |z.receiver.dispatched| {
      MovesMeans(y.reliable, z);
      DispatchPart(y, z, unr);
      AdvanceWithin(y.unreliable.queue, z.receiver.number, Labels(w.script));
    }
  }

  lemma ScriptPart(y: System, z: Reliable.System)
    requires ScriptOk(y.script, y.reliable.sent, y.count) && Moves(y.reliable, z)
    ensures var w := AfterReliable(y, z);
            ScriptOk(w.script, z.sent, w.count) && Labels(y.script) <= Labels(w.script)
  {
    hide Last, ScriptOk, Labels, Handed, Packets, Since, Wire, Win, Advance;
    var t, u := y.reliable.sent, z.sent;
    if |t.packets| < |u.packets| {
      ScriptSends(y.script, t, y.count, u);
      MoreLabels(y.script, Handed(u, u.packets, |t.packets|, |u.packets|));
    } else {
      assert t.packets == u.packets && t == u;
    }
  }

  lemma DispatchPart(y: System, z: Reliable.System, unr: seq<Unreliable.System>)
    requires Moves(y.reliable, z) && |y.reliable.receiver.dispatched| < |z.receiver.dispatched|
    requires Delivers(y.dispatched, z.sent, |y.reliable.receiver.dispatched|, y.unreliable.queue.dispatched)
    requires Unreliable.Run(unr) && |unr| > 0 && unr[|unr| - 1] == y.unreliable
    requires y.unreliable.reached == Reliable.Reached(y.reliable)
    ensures var w := AfterReliable(y, z);
            Delivers(w.dispatched, z.sent, |z.receiver.dispatched|, w.unreliable.queue.dispatched)
  {
    hide Last, Delivers, Handed, Packets, Wire, Win, Advance, Reliable.Reached;
    var r, m, m' := Reliable.Reached(z), |y.reliable.receiver.dispatched|, |z.receiver.dispatched|;
    var before, now := y.unreliable.queue.dispatched, Advance(y.unreliable.queue, z.receiver.number).dispatched;
    MovesMeans(y.reliable, z);
    MoveOnEnabled(y.unreliable, r);
    UnreliableGrows(unr, Unreliable.MoveOn(r), z.sent, m');
    DeliversMore(y.dispatched, z.sent, m, m', before, now);
    assert z.receiver.dispatched[..m'] == z.sent.packets[..m'];
    HandedStays(z.sent, z.sent, z.receiver.dispatched, z.sent.packets, m, m');
    assert y.dispatched + (Handed(z.sent, z.sent.packets, m, m') + Packets(Since(before, now)))
        == y.dispatched + Handed(z.sent, z.sent.packets, m, m') + Packets(Since(before, now));
  }

  lemma StartGood(fl: Length)
    ensures Good(Start(fl))
  {
    assert Base(Sent([], fl), 0) == 0;
  }

  lemma {:induction false} RunGood(run: seq<System>, fl: Length, limits: Reliable.Limits, k: nat)
    requires Run(run, fl, limits) && k < |run|
    ensures Good(run[k])
  {
    hide Good, Enabled, Next, Reliable.Run, Unreliable.Run;
    if k == 0 {
      StartGood(fl);
    } else {
      RunGood(run, fl, limits, k - 1);
      assert Step(run[k - 1], run[k - 1 + 1], limits);
      var act: Action :| Enabled(run[k - 1], act) && run[k] == Next(run[k - 1], act, limits);
      var rel, unr := Halves(run, fl, limits, k - 1);
      StepKeeps(run[k - 1], act, fl, limits, rel, unr);
    }
  }

  lemma StepKeeps(y: System, act: Action, fl: Length, limits: Reliable.Limits,
      rel: seq<Reliable.System>, unr: seq<Unreliable.System>)
    requires Good(y) && Enabled(y, act)
    requires Reliable.Run(rel, fl, limits) && |rel| > 0 && rel[|rel| - 1] == y.reliable
    requires Unreliable.Run(unr) && |unr| > 0 && unr[|unr| - 1] == y.unreliable
    requires y.unreliable.reached == Reliable.Reached(y.reliable)
    ensures Good(Next(y, act, limits))
  {
    hide Good, Reliable.Run, Unreliable.Run, AfterReliable, AfterArrival, Reliable.Enabled, Unreliable.Enabled,
         Reliable.Next, Unreliable.Next, Moves, Last, Reliable.Reached;
    match act
    case SendUnreliable(packet, fragmentCount) => SendUnreliableKeeps(y, packet, fragmentCount, limits);
    case Arrive(a) =>
      ReachedIsLast(rel, fl, limits);
      ArrivalKeeps(y, a, fl, limits, rel, unr);
    case Reliably(a) =>
      var rel', unr' := HalvesStep(y, act, fl, limits, rel, unr);
      AfterHas(y, Reliable.Next(y.reliable, a, limits));
      ReliablyKeeps(y, Reliable.Next(y.reliable, a, limits), unr);
  }

  lemma AfterHas(y: System, z: Reliable.System)
    ensures AfterReliable(y, z).reliable == z
  {
  }

  lemma ReachedIsLast(rel: seq<Reliable.System>, fl: Length, limits: Reliable.Limits)
    requires Reliable.Run(rel, fl, limits) && |rel| > 0
    ensures var y := rel[|rel| - 1]; Reliable.Reached(y) == Last(y.sent, |y.receiver.dispatched|)
  {
    hide Reliable.Run, First;
    Reliable.ReliableDelivery(rel, fl, limits, |rel| - 1, |rel| - 1);
  }

  // ----- the order

  /** A dispatched packet is the one sent, whole or put together from its fragments. */
  predicate SentAs(s: Event, d: Event) {
    match s
    case Command(_, _) => d == s
    case Packet(e) => e.sequenced && d.Packet? && d.e.sequenced && LabelOf(d.e) == LabelOf(e)
  }

  predicate Both(s: seq<Event>, a: int, b: int) {
    0 <= a < |s| && 0 <= b < |s|
  }

  /** The reliable packets dispatched are, in order, the first of those sent. */
  lemma ReliablePrefix(run: seq<System>, fl: Length, limits: Reliable.Limits, k: nat)
    requires Run(run, fl, limits) && k < |run|
    ensures CommandsOf(run[k].dispatched) <= CommandsOf(run[k].script)
    ensures |CommandsOf(run[k].dispatched)| == |run[k].reliable.receiver.dispatched|
    ensures |CommandsOf(run[k].script)| == |run[k].reliable.sent.packets|
  {
    hide Run, InOrder, Seen, Covered, Within, Last, CommandsOf;
    RunGood(run, fl, limits, k);
    var t, m := run[k].reliable.sent, |run[k].reliable.receiver.dispatched|;
    HandedFacts(t, t.packets, 0, m);
    HandedFacts(t, t.packets, 0, |t.packets|);
    HandedJoin(t, t.packets, 0, m, |t.packets|);
  }

  /** Over every run: whatever is dispatched with a place in the order was sent; two such
      packets come in the order they were sent in; and before each of them come all the
      reliable packets that were sent before it. */
  lemma OneOrder(run: seq<System>, fl: Length, limits: Reliable.Limits, k: nat)
    requires Run(run, fl, limits) && k < |run|
    ensures var s, d := run[k].script, run[k].dispatched;
            && (forall j :: 0 <= j < |d| && Placed(d[j]) ==> exists a :: 0 <= a < |s| && SentAs(s[a], d[j]))
            && (forall i, j, a, b :: 0 <= i < j < |d| && Both(s, a, b) && SentAs(s[a], d[i]) && SentAs(s[b], d[j]) ==>
                  a < b)
            && (forall j, a, b :: 0 <= j < |d| && 0 <= a < b < |s| && SentAs(s[b], d[j]) && s[a].Command? ==>
                  s[a] in d[..j])
  {
    hide Run, Good, SentAs;
    RunGood(run, fl, limits, k);
    var y := run[k];
    var s, d := y.script, y.dispatched;
    forall j | 0 <= j < |d| && Placed(d[j]) ensures exists a :: 0 <= a < |s| && SentAs(s[a], d[j]) {
      var a := WasSent(y, j);
    }
    forall i, j, a, b | 0 <= i < j < |d| && Both(s, a, b) && SentAs(s[a], d[i]) && SentAs(s[b], d[j])
      ensures a < b
    {
      InTurn(y, i, j, a, b);
    }
    forall j, a, b | 0 <= j < |d| && 0 <= a < b < |s| && SentAs(s[b], d[j]) && s[a].Command?
      ensures s[a] in d[..j]
    {
      NoneSkipped(y, j, a, b);
    }
  }

  lemma WasSent(y: System, j: nat) returns (a: nat)
    requires Good(y) && j < |y.dispatched| && Placed(y.dispatched[j])
    ensures a < |y.script| && SentAs(y.script[a], y.dispatched[j])
  {
    hide InOrder, Covered, Last, CommandsOf;
    var t, m, x := y.reliable.sent, |y.reliable.receiver.dispatched|, y.dispatched[j];
    match x
    case Command(_, _) =>
      CommandsMembers(y.dispatched, x);
      HandedJoin(t, t.packets, 0, m, |t.packets|);
      assert x in Handed(t, t.packets, 0, m);
      CommandsMembers(y.script, x);
      a :| 0 <= a < |y.script| && y.script[a] == x;
    case Packet(e) =>
      var i :| 0 <= i < |y.unreliable.queue.dispatched| && y.unreliable.queue.dispatched[i] == e;
      assert Known(e, Labels(y.script));
      a :| 0 <= a < |y.script| && y.script[a].Packet? && LabelOf(y.script[a].e) == LabelOf(e);
      assert Placed(y.script[a]);
  }

  lemma SameKey(s: Event, d: Event)
    requires SentAs(s, d)
    ensures Placed(s) && Placed(d) && Number(s) == Number(d) && Count(s) == Count(d)
  {
  }

  lemma InTurn(y: System, i: nat, j: nat, a: nat, b: nat)
    requires Good(y) && i < j < |y.dispatched| && a < |y.script| && b < |y.script|
    requires SentAs(y.script[a], y.dispatched[i]) && SentAs(y.script[b], y.dispatched[j])
    ensures a < b
  {
    hide Seen, Covered, Last, CommandsOf, Within, SentAs;
    SameKey(y.script[a], y.dispatched[i]);
    SameKey(y.script[b], y.dispatched[j]);
    assert Earlier(y.dispatched[i], y.dispatched[j]);
    if b < a {
      InOrderMeans(y.script, b, a);
    }
  }

  lemma NoneSkipped(y: System, j: nat, a: nat, b: nat)
    requires Good(y) && j < |y.dispatched| && a < b < |y.script|
    requires SentAs(y.script[b], y.dispatched[j]) && y.script[a].Command?
    ensures y.script[a] in y.dispatched[..j]
  {
    hide Seen, Last, CommandsOf, Within, InOrder;
    var t, m, x, d := y.reliable.sent, |y.reliable.receiver.dispatched|, y.script[a], y.dispatched;
    assert Earlier(x, y.script[b]) by { InOrderMeans(y.script, a, b); }
    CommandsMembers(y.script, x);
    var i := HandedIndex(t, |t.packets|, x);
    match d[j]
    case Packet(e) =>
    case Command(_, _) =>
      CommandsMembers(d, d[j]);
      var l := HandedIndex(t, m, d[j]);
      if l <= i {
        LastGrows(t, l + 1, i + 1);
      }
      HandedFacts(t, t.packets, 0, m);
      assert x == Handed(t, t.packets, 0, m)[i];
      CommandsMembers(d, x);
      var h :| 0 <= h < |d| && d[h] == x;
      if j < h {
        InOrderMeans(d, j, h);
      }
      assert h < j && d[..j][h] == x;
  }
}
