/**
 The order of what is sent on a channel and of what is dispatched: how the queue of what was
 dispatched and the script of what was sent grow, and stay in order.
 */
module EventOrder {
  import opened Words
  import opened ReceiverInvariant
  import opened UnreliableQueue
  import opened ChannelProtocol
  import Order = UnreliableOrder

  /** Unsequenced packets have no place in the order. */
  predicate Placed(a: Event) {
    a.Command? || a.e.sequenced
  }

  function Number(a: Event): nat {
    if a.Command? then a.n else a.e.n
  }

  function Count(a: Event): nat {
    if a.Command? then 0 else a.e.unreliable
  }

  /** By the number of the reliable command before, then by count. */
  predicate Earlier(a: Event, b: Event) {
    Placed(a) && Placed(b) ==> Number(a) < Number(b) || (Number(a) == Number(b) && Count(a) < Count(b))
  }

  ghost predicate InOrder(list: seq<Event>) {
    forall i, j :: 0 <= i < j < |list| ==> Earlier(list[i], list[j])
  }

  function CommandsOf(list: seq<Event>): seq<Event> {
    if list == [] then []
    else
      var a := list[|list| - 1];
      CommandsOf(list[..|list| - 1]) + if a.Command? then [a] else []
  }

  lemma CommandsLast(list: seq<Event>, x: Event)
    ensures CommandsOf(list + [x]) == CommandsOf(list) + if x.Command? then [x] else []
  {
    assert (list + [x])[..|list|] == list;
  }

  lemma {:induction false} CommandsConcat(a: seq<Event>, b: seq<Event>)
    ensures CommandsOf(a + b) == CommandsOf(a) + CommandsOf(b)
  {
    if b == [] {
      assert a + b == a;
    } else {
      hide CommandsOf;
      var c, x := b[..|b| - 1], b[|b| - 1];
      CommandsConcat(a, c);
      CommandsLast(c, x);
      CommandsLast(a + c, x);
      assert c + [x] == b && (a + c) + [x] == a + b;
    }
  }

  lemma {:induction false} CommandsMembers(list: seq<Event>, x: Event)
    requires x.Command?
    ensures x in CommandsOf(list) <==> x in list
  {
    if list != [] {
      var k := |list| - 1;
      CommandsMembers(list[..k], x);
      assert list == list[..k] + [list[k]];
    }
  }

  // ----- what a step adds

  /** Packets' last numbers grow. */
  lemma LastGrows(t: Sent, a: nat, b: nat)
    requires a <= b <= |t.packets|
    ensures Last(t, a) + (b - a) <= Last(t, b)
  {
    FirstMono(t, a, b);
  }

  lemma LastStays(t: Sent, u: Sent, k: nat)
    requires t.fl == u.fl && t.packets <= u.packets && k <= |t.packets|
    ensures Last(t, k) == Last(u, k)
  {
    Reliable.FirstPrefix(t, u, k);
  }

  lemma {:induction false} HandedFacts(t: Sent, data: seq<seq<byte>>, from: nat, to: nat)
    requires from <= to <= |data|
    ensures |Handed(t, data, from, to)| == to - from
    ensures forall i :: 0 <= i < to - from ==>
              Handed(t, data, from, to)[i] == Command(Last(t, from + 1 + i), data[from + i])
  {
    hide Last;
    if from < to {
      HandedFacts(t, data, from, to - 1);
    }
  }

  lemma {:induction false} HandedCommands(t: Sent, data: seq<seq<byte>>, from: nat, to: nat)
    requires from <= to <= |data|
    ensures CommandsOf(Handed(t, data, from, to)) == Handed(t, data, from, to)
  {
    hide Last, CommandsOf;
    if from < to {
      HandedCommands(t, data, from, to - 1);
      CommandsLast(Handed(t, data, from, to - 1), Command(Last(t, to), data[to - 1]));
    } else {
      NoCommands();
    }
  }

  lemma NoCommands()
    ensures CommandsOf([]) == []
  {
  }

  lemma {:induction false} HandedJoin(t: Sent, data: seq<seq<byte>>, from: nat, mid: nat, to: nat)
    requires from <= mid <= to <= |data|
    ensures Handed(t, data, from, mid) + Handed(t, data, mid, to) == Handed(t, data, from, to)
  {
    hide Last;
    if mid < to {
      HandedJoin(t, data, from, mid, to - 1);
    }
  }

  /** Later packets change nothing for the earlier ones. */
  lemma {:induction false} HandedStays(t: Sent, u: Sent, d: seq<seq<byte>>, e: seq<seq<byte>>, from: nat, to: nat)
    requires t.fl == u.fl && t.packets <= u.packets
    requires from <= to <= |t.packets| && to <= |d| && to <= |e| && d[..to] == e[..to]
    ensures Handed(t, d, from, to) == Handed(u, e, from, to)
  {
    hide Last;
    if from < to {
      assert d[..to - 1] == d[..to][..to - 1] && e[..to - 1] == e[..to][..to - 1];
      HandedStays(t, u, d, e, from, to - 1);
      LastStays(t, u, to);
      assert d[to - 1] == d[..to][to - 1] && e[to - 1] == e[..to][to - 1];
    }
  }

  lemma {:induction false} PacketsFacts(list: seq<Entry>)
    ensures |Packets(list)| == |list|
    ensures forall i :: 0 <= i < |list| ==> Packets(list)[i] == Packet(list[i])
    ensures CommandsOf(Packets(list)) == []
  {
    if list != [] {
      var k := |list| - 1;
      PacketsFacts(list[..k]);
      CommandsLast(Packets(list[..k]), Packet(list[k]));
    }
  }

  /** What is dispatched in a step, when the reliable half gets from packet `m` to `m'`. */
  ghost function Added(t: Sent, m: nat, m': nat, before: seq<Entry>, now: seq<Entry>): seq<Event>
    requires m <= m' <= |t.packets|
  {
    Handed(t, t.packets, m, m') + Packets(Since(before, now))
  }

  /** The new packets come after the old ones and follow the number reached. */
  ghost predicate Grown(t: Sent, m': nat, before: seq<Entry>, now: seq<Entry>) {
    && before <= now && Order.Sorted(now)
    && forall k :: |before| <= k < |now| && now[k].sequenced ==> now[k].n == Last(t, m') && now[k].unreliable >= 1
  }

  lemma AddedFacts(t: Sent, m: nat, m': nat, before: seq<Entry>, now: seq<Entry>)
    requires m <= m' <= |t.packets| && Grown(t, m', before, now)
    ensures var a, n := Added(t, m, m', before, now), |before|;
            && |a| == m' - m + |now| - n
            && (forall i :: 0 <= i < m' - m ==> a[i] == Command(Last(t, m + 1 + i), t.packets[m + i]))
            && (forall i :: m' - m <= i < |a| ==> a[i] == Packet(now[n + i - (m' - m)]))
            && CommandsOf(a) == Handed(t, t.packets, m, m')
  {
    hide Last, Order.Sorted, CommandsOf;
    HandedFacts(t, t.packets, m, m');
    HandedCommands(t, t.packets, m, m');
    PacketsFacts(now[|before|..]);
    CommandsConcat(Handed(t, t.packets, m, m'), Packets(now[|before|..]));
  }

  // ----- the queue of what is dispatched

  /** Everything dispatched so far belongs to the packets reached. */
  ghost predicate Seen(list: seq<Event>, t: Sent, m: nat, packets: seq<Entry>) {
    forall i :: 0 <= i < |list| ==>
      match list[i]
      case Command(n, _) => n <= Last(t, m)
      case Packet(e) => e in packets && (e.sequenced ==> e.n <= Last(t, m))
  }

  /** Before a packet come all reliable packets up to the number it follows. */
  ghost predicate Covered(list: seq<Event>, t: Sent) {
    forall j, k :: 0 <= j < |list| && list[j].Packet? && list[j].e.sequenced && 0 <= k < |t.packets|
                     && Last(t, k + 1) <= list[j].e.n ==>
      Command(Last(t, k + 1), t.packets[k]) in list[..j]
  }

  ghost predicate Delivers(list: seq<Event>, t: Sent, m: nat, packets: seq<Entry>) {
    && m <= |t.packets|
    && InOrder(list) && Seen(list, t, m, packets) && Covered(list, t)
    && CommandsOf(list) == Handed(t, t.packets, 0, m)
  }

  lemma DeliversOrder(list: seq<Event>, t: Sent, m: nat, m': nat, before: seq<Entry>, now: seq<Entry>)
    requires m <= m' <= |t.packets| && Grown(t, m', before, now) && InOrder(list) && Seen(list, t, m, before)
    ensures InOrder(list + Added(t, m, m', before, now))
  {
    hide Added, Last, Order.Sorted;
    AddedFacts(t, m, m', before, now);
    var a := Added(t, m, m', before, now);
    var all := list + a;
    forall i, j | 0 <= i < j < |all| ensures Earlier(all[i], all[j]) {
      if i >= |list| {
        NewInOrder(t, m, m', before, now, i - |list|, j - |list|);
      } else if j >= |list| {
        OldBeforeNew(list, t, m, m', before, now, i, j - |list|);
      }
    }
  }

  lemma NewInOrder(t: Sent, m: nat, m': nat, before: seq<Entry>, now: seq<Entry>, i: nat, j: nat)
    requires m <= m' <= |t.packets| && Grown(t, m', before, now)
    requires i < j < |Added(t, m, m', before, now)|
    ensures Earlier(Added(t, m, m', before, now)[i], Added(t, m, m', before, now)[j])
  {
    hide Added, Last;
    AddedFacts(t, m, m', before, now);
    if j < m' - m {
      LastGrows(t, m + 1 + i, m + 1 + j);
    } else if i < m' - m {
      LastGrows(t, m + 1 + i, m');
    }
  }

  lemma OldBeforeNew(list: seq<Event>, t: Sent, m: nat, m': nat, before: seq<Entry>, now: seq<Entry>, i: nat, j: nat)
    requires m <= m' <= |t.packets| && Grown(t, m', before, now) && Seen(list, t, m, before)
    requires i < |list| && j < |Added(t, m, m', before, now)|
    ensures Earlier(list[i], Added(t, m, m', before, now)[j])
  {
    hide Added, Last;
    AddedFacts(t, m, m', before, now);
    LastGrows(t, m, m');
    if j < m' - m {
      LastGrows(t, m, m + 1 + j);
    }
    if list[i].Packet? && j >= m' - m {
      var e := list[i].e;
      var k :| 0 <= k < |before| && before[k] == e;
      assert now[k] == e;
    }
  }

  lemma DeliversSeen(list: seq<Event>, t: Sent, m: nat, m': nat, before: seq<Entry>, now: seq<Entry>)
    requires m <= m' <= |t.packets| && Grown(t, m', before, now) && Seen(list, t, m, before)
    ensures Seen(list + Added(t, m, m', before, now), t, m', now)
  {
    hide Added, Last, Order.Sorted;
    AddedFacts(t, m, m', before, now);
    LastGrows(t, m, m');
    var a := Added(t, m, m', before, now);
    var all := list + a;
    forall i | 0 <= i < |all|
      ensures match all[i]
              case Command(n, _) => n <= Last(t, m')
              case Packet(e) => e in now && (e.sequenced ==> e.n <= Last(t, m'))
    {
      if i < |list| {
        assert all[i] == list[i];
      } else if i < |list| + m' - m {
        LastGrows(t, m + 1 + (i - |list|), m');
      }
    }
  }

  lemma DeliversCovered(list: seq<Event>, t: Sent, m: nat, m': nat, before: seq<Entry>, now: seq<Entry>)
    requires m <= m' <= |t.packets| && Grown(t, m', before, now) && Covered(list, t)
    requires CommandsOf(list) == Handed(t, t.packets, 0, m)
    ensures Covered(list + Added(t, m, m', before, now), t)
  {
    hide Added, Last, Order.Sorted, CommandsOf;
    AddedFacts(t, m, m', before, now);
    var a := Added(t, m, m', before, now);
    var all := list + a;
    forall j, k | 0 <= j < |all| && all[j].Packet? && all[j].e.sequenced && 0 <= k < |t.packets|
                  && Last(t, k + 1) <= all[j].e.n
      ensures Command(Last(t, k + 1), t.packets[k]) in all[..j]
    {
      if j < |list| {
        assert all[..j] == list[..j];
      } else {
        if k >= m' {
          LastGrows(t, m', k + 1);
        }
        InQueue(list, t, m, m', before, now, k);
        assert all[..j] == list + a[..j - |list|];
      }
    }
  }

  /** Reliable packet `k` was dispatched before the step, or is in it before all others. */
  lemma InQueue(list: seq<Event>, t: Sent, m: nat, m': nat, before: seq<Entry>, now: seq<Entry>, k: nat)
    requires k < m' && m <= m' <= |t.packets| && Grown(t, m', before, now)
    requires CommandsOf(list) == Handed(t, t.packets, 0, m)
    ensures var a, x := Added(t, m, m', before, now), Command(Last(t, k + 1), t.packets[k]);
            if k < m then x in list else k - m < |a| && a[k - m] == x
  {
    hide Added, Last;
    AddedFacts(t, m, m', before, now);
    if k < m {
      HandedFacts(t, t.packets, 0, m);
      assert Handed(t, t.packets, 0, m)[k] == Command(Last(t, k + 1), t.packets[k]);
      CommandsMembers(list, Command(Last(t, k + 1), t.packets[k]));
    }
  }

  lemma DeliversMore(list: seq<Event>, t: Sent, m: nat, m': nat, before: seq<Entry>, now: seq<Entry>)
    requires Delivers(list, t, m, before) && m <= m' <= |t.packets| && Grown(t, m', before, now)
    ensures Delivers(list + Added(t, m, m', before, now), t, m', now)
  {
    hide InOrder, Seen, Covered, Grown, Last, Added, Handed;
    DeliversOrder(list, t, m, m', before, now);
    DeliversSeen(list, t, m, m', before, now);
    DeliversCovered(list, t, m, m', before, now);
    AddedFacts(t, m, m', before, now);
    CommandsConcat(list, Added(t, m, m', before, now));
    HandedJoin(t, t.packets, 0, m, m');
  }

  /** Packets sent later change nothing. */
  lemma DeliversStays(list: seq<Event>, t: Sent, u: Sent, m: nat, packets: seq<Entry>)
    requires Delivers(list, t, m, packets) && t.fl == u.fl && t.packets <= u.packets
    ensures Delivers(list, u, m, packets)
  {
    hide Last, CommandsOf, InOrder;
    HandedStays(t, u, t.packets, u.packets, 0, m);
    LastStays(t, u, m);
    forall j, k | 0 <= j < |list| && list[j].Packet? && list[j].e.sequenced && 0 <= k < |u.packets|
                  && Last(u, k + 1) <= list[j].e.n
      ensures Command(Last(u, k + 1), u.packets[k]) in list[..j]
    {
      if k < |t.packets| {
        LastStays(t, u, k + 1);
      } else {
        LastGrows(u, m, k + 1);
      }
    }
  }

  // ----- the script

  ghost predicate ScriptOk(script: seq<Event>, t: Sent, count: nat) {
    && InOrder(script)
    && (forall i :: 0 <= i < |script| ==> Placed(script[i]))
    && (forall i :: 0 <= i < |script| ==>
          var n := Last(t, |t.packets|); Number(script[i]) < n || (Number(script[i]) == n && Count(script[i]) <= count))
    && CommandsOf(script) == Handed(t, t.packets, 0, |t.packets|)
  }

  lemma ScriptSends(script: seq<Event>, t: Sent, count: nat, u: Sent)
    requires ScriptOk(script, t, count) && t.fl == u.fl && t.packets < u.packets
    ensures ScriptOk(script + Handed(u, u.packets, |t.packets|, |u.packets|), u, 0)
  {
    hide Last, CommandsOf, Handed;
    var p, p' := |t.packets|, |u.packets|;
    var more := Handed(u, u.packets, p, p');
    HandedFacts(u, u.packets, p, p');
    HandedCommands(u, u.packets, p, p');
    LastStays(t, u, p);
    LastGrows(u, p, p');
    forall j | 0 <= j < |more| ensures Last(u, p) < Number(more[j]) <= Last(u, p') && Count(more[j]) == 0 {
      LastGrows(u, p, p + 1 + j);
      LastGrows(u, p + 1 + j, p');
    }
    forall i, j | 0 <= i < j < |more| ensures Earlier(more[i], more[j]) {
      LastGrows(u, p + 1 + i, p + 1 + j);
    }
    CommandsConcat(script, more);
    HandedStays(t, u, t.packets, u.packets, 0, p);
    HandedJoin(u, u.packets, 0, p, p');
  }

  lemma ScriptCounts(script: seq<Event>, t: Sent, count: nat, e: Entry)
    requires ScriptOk(script, t, count)
    requires e.sequenced && e.n == Last(t, |t.packets|) && e.unreliable == count + 1
    ensures ScriptOk(script + [Packet(e)], t, count + 1)
  {
    hide Last, CommandsOf, Handed;
    CommandsLast(script, Packet(e));
  }

  lemma InOrderMeans(list: seq<Event>, i: nat, j: nat)
    requires InOrder(list) && i < j < |list|
    ensures Earlier(list[i], list[j])
  {
  }

  lemma HandedIndex(t: Sent, to: nat, x: Event) returns (i: nat)
    requires to <= |t.packets| && x in Handed(t, t.packets, 0, to)
    ensures i < to && x == Command(Last(t, i + 1), t.packets[i])
  {
    hide Last;
    HandedFacts(t, t.packets, 0, to);
    i :| 0 <= i < to && Handed(t, t.packets, 0, to)[i] == x;
  }
}
