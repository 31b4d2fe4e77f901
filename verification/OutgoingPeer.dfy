/**
 The sending side of a peer: the queues all its channels share. Seen from any one
 channel, each operation on the shared queues is a step of that channel's own sender, or
 nothing. So each channel makes a run of its own, and what is proved of a single channel
 holds for all of them at once: PeerProtocol.ChannelRun.
 */
module OutgoingPeer {
  import opened Words
  import opened ReliableWindows
  import opened WindowBits
  import opened ReliableSender

  /** A channel's part; `last` is the unbounded number that `number` stands for. */
  datatype Channel = Channel(number: u16, last: nat, windows: Counters, used: set<Window>)

  datatype Command = Command(channel: nat, out: Out)

  datatype Queues = Queues(channels: seq<Channel>, sent: seq<Command>, outgoing: seq<Command>, inTransit: int)

  /** The commands of one channel, in order. */
  function Of(list: seq<Command>, c: nat): seq<Out> {
    if list == [] then []
    else
      var k := |list| - 1;
      Of(list[..k], c) + if list[k].channel == c then [list[k].out] else []
  }

  function Total(list: seq<Command>): nat {
    if list == [] then 0 else Total(list[..|list| - 1]) + list[|list| - 1].out.length
  }

  /** What one channel sees of the queues. */
  function View(p: Queues, c: nat): Sender
    requires c < |p.channels|
  {
    var h := p.channels[c];
    Sender(h.number, Of(p.sent, c), Of(p.outgoing, c), h.windows, h.used, TotalLength(Of(p.sent, c)))
  }

  /** Every queued command belongs to a channel, commands sent before come first among
      those waiting, and the data in transit is what the sent commands carry. */
  ghost predicate Ordered(p: Queues) {
    && (forall k :: 0 <= k < |p.sent| ==> p.sent[k].channel < |p.channels|)
    && (forall k :: 0 <= k < |p.outgoing| ==> p.outgoing[k].channel < |p.channels|)
    && (forall i, j :: 0 <= i < j < |p.outgoing| && p.outgoing[j].out.attempts >= 1 ==> p.outgoing[i].out.attempts >= 1)
    && (forall k :: 0 <= k < |p.sent| ==> p.sent[k].out.attempts >= 1)
    && p.inTransit == Total(p.sent)
  }

  // ----- the operations

  function Queue(p: Queues, c: nat, length: nat): Queues
    requires c < |p.channels|
  {
    var h := p.channels[c].(number := U16(p.channels[c].number + 1), last := p.channels[c].last + 1);
    p.(channels := p.channels[c := h], outgoing := p.outgoing + [Command(c, Out(h.number, h.last, 0, length))])
  }

  predicate Sendable(p: Queues, limit: nat) {
    && |p.outgoing| > 0 && p.outgoing[0].channel < |p.channels|
    && var c, o := p.outgoing[0].channel, p.outgoing[0].out;
       !HeldBack(View(p, c), o) && p.inTransit + o.length <= limit
  }

  function SendFirst(p: Queues): Queues
    requires |p.outgoing| > 0 && p.outgoing[0].channel < |p.channels|
  {
    var c, o := p.outgoing[0].channel, p.outgoing[0].out;
    var h, w := p.channels[c], WindowOf(o);
    var counted := h.(windows := h.windows[w := h.windows[w] + 1], used := h.used + {w});
    p.(channels := if o.attempts < 1 then p.channels[c := counted] else p.channels,
       sent := p.sent + [Command(c, o.(attempts := o.attempts + 1))],
       outgoing := p.outgoing[1..],
       inTransit := p.inTransit + o.length)
  }

  /** Commands go out in order until one may not, or no more fit. */
  function SendWhile(p: Queues, limit: nat, fits: nat): Queues
    decreases fits
  {
    if fits == 0 || !Sendable(p, limit) then p else SendWhile(SendFirst(p), limit, fits - 1)
  }

  function Filter(list: seq<Command>, expired: seq<bool>, flag: bool): seq<Command>
    requires |expired| == |list|
  {
    if list == [] then []
    else
      var k := |list| - 1;
      Filter(list[..k], expired[..k], flag) + if expired[k] == flag then [list[k]] else []
  }

  function Return(p: Queues, expired: seq<bool>): Queues
    requires |expired| == |p.sent|
  {
    var back := Filter(p.sent, expired, true);
    p.(sent := Filter(p.sent, expired, false), outgoing := back + p.outgoing, inTransit := p.inTransit - Total(back))
  }

  predicate Is(m: Command, number: u16, c: nat) {
    m.out.number == number && m.channel == c
  }

  function Find(list: seq<Command>, number: u16, c: nat): (k: nat)
    ensures k <= |list|
    ensures k < |list| ==> Is(list[k], number, c)
    ensures forall i :: 0 <= i < k ==> !Is(list[i], number, c)
  {
    if list == [] then 0 else if Is(list[0], number, c) then 0 else 1 + Find(list[1..], number, c)
  }

  /** The search among waiting commands ends at the first one never sent. */
  function FindAgain(list: seq<Command>, number: u16, c: nat): (k: nat)
    ensures k <= |list|
    ensures k < |list| ==> Is(list[k], number, c) && list[k].out.attempts >= 1
    ensures k < |list| ==> forall i :: 0 <= i < k ==> !Is(list[i], number, c)
  {
    if list == [] || list[0].out.attempts < 1 then |list|
    else if Is(list[0], number, c) then 0
    else 1 + FindAgain(list[1..], number, c)
  }

  function Drop(list: seq<Command>, k: nat): seq<Command>
    requires k < |list|
  {
    list[..k] + list[k + 1..]
  }

  function Discount(h: Channel, w: Window): Channel {
    if h.windows[w] == 0 then h
    else h.(windows := h.windows[w := h.windows[w] - 1], used := if h.windows[w] == 1 then h.used - {w} else h.used)
  }

  function Remove(p: Queues, number: u16, c: nat): Queues
    requires c < |p.channels|
  {
    var k, l := Find(p.sent, number, c), FindAgain(p.outgoing, number, c);
    if k == |p.sent| && l == |p.outgoing| then p
    else
      var q := p.(channels := p.channels[c := Discount(p.channels[c], number / WINDOW_SIZE)]);
      if k < |p.sent| then q.(sent := Drop(p.sent, k), inTransit := p.inTransit - p.sent[k].out.length)
      else q.(outgoing := Drop(p.outgoing, l))
  }

  // ----- what a channel sees of them

  lemma {:induction false} OfConcat(a: seq<Command>, b: seq<Command>, c: nat)
    ensures Of(a + b, c) == Of(a, c) + Of(b, c)
    ensures Total(a + b) == Total(a) + Total(b)
  {
    if b == [] {
      assert a + b == a;
    } else {
      var k := |b| - 1;
      OfConcat(a, b[..k], c);
      assert (a + b)[..|a + b| - 1] == a + b[..k];
    }
  }

  lemma OfOne(m: Command, c: nat)
    ensures Of([m], c) == if m.channel == c then [m.out] else []
    ensures Total([m]) == m.out.length
  {
    assert [m][..0] == [];
  }

  lemma QueueView(p: Queues, c: nat, length: nat, d: nat)
    requires Ordered(p) && c < |p.channels| && d < |p.channels|
    ensures Ordered(Queue(p, c, length))
    ensures View(Queue(p, c, length), d) ==
            if d == c then Enqueue(View(p, c), p.channels[c].last + 1, length) else View(p, d)
  {
    hide Of, Total, TotalLength;
    var m := Queue(p, c, length).outgoing[|p.outgoing|];
    OfConcat(p.outgoing, [m], d);
    OfOne(m, d);
  }

  lemma SendOrdered(p: Queues, limit: nat)
    requires Ordered(p) && Sendable(p, limit)
    ensures Ordered(SendFirst(p)) && |SendFirst(p).channels| == |p.channels|
    ensures SendFirst(p).inTransit <= limit
  {
    hide HeldBack, Total, View;
    var again := SendFirst(p).sent[|p.sent|];
    OfConcat(p.sent, [again], 0);
    OfOne(again, 0);
  }

  lemma SendView(p: Queues, limit: nat, d: nat)
    requires Ordered(p) && Sendable(p, limit) && d < |p.channels|
    ensures if p.outgoing[0].channel == d then
              MaySend(View(p, d), limit) && View(SendFirst(p), d) == SendHead(View(p, d))
            else View(SendFirst(p), d) == View(p, d)
  {
    hide HeldBack, TotalLength, Total, Of;
    var m, q := p.outgoing[0], SendFirst(p);
    var again := q.sent[|p.sent|];
    OfConcat(p.sent, [again], d);
    OfOne(again, d);
    OfConcat([m], p.outgoing[1..], d);
    OfOne(m, d);
    assert p.outgoing == [m] + p.outgoing[1..];
    assert Of(p.sent, d) + [] == Of(p.sent, d) && [] + Of(p.outgoing[1..], d) == Of(p.outgoing[1..], d);
    OfTotal(p.sent, d);
    if m.channel == d {
      NumbersAppend(Of(p.sent, d), again.out);
      assert Of(p.outgoing, d)[0] == m.out && Of(p.outgoing, d)[1..] == Of(p.outgoing[1..], d);
    }
  }

  /** `k` times in a row the channel's first command may go, and goes. */
  ghost predicate SendsRun(s: Sender, limit: nat, k: nat, d: Sender)
    decreases k
  {
    if k == 0 then d == s else MaySend(s, limit) && SendsRun(SendHead(s), limit, k - 1, d)
  }

  /** However the channels' commands are mixed, each channel's own go out in its order and
      only when that channel alone may send; and the data in transit stays within the limit. */
  lemma {:induction false} SendWhileView(p: Queues, limit: nat, fits: nat, d: nat) returns (k: nat)
    requires Ordered(p) && d < |p.channels|
    ensures var q := SendWhile(p, limit, fits);
            && Ordered(q) && |q.channels| == |p.channels|
            && SendsRun(View(p, d), limit, k, View(q, d))
            && (q.inTransit <= limit || q == p)
    decreases fits
  {
    hide Ordered, View, Sendable, SendFirst, MaySend, SendHead;
    k := 0;
    if fits > 0 && Sendable(p, limit) {
      SendOrdered(p, limit);
      SendView(p, limit, d);
      HeadThere(p, limit);
      k := SendWhileView(SendFirst(p), limit, fits - 1, d);
      k := if p.outgoing[0].channel == d then k + 1 else k;
    }
  }

  lemma HeadThere(p: Queues, limit: nat)
    requires Sendable(p, limit)
    ensures |p.outgoing| > 0 && p.outgoing[0].channel < |p.channels|
  {
  }

  /** A channel's share of the data in transit is at most all of it. */
  lemma {:induction false} OfTotal(list: seq<Command>, c: nat)
    ensures TotalLength(Of(list, c)) <= Total(list)
  {
    if list != [] {
      var k := |list| - 1;
      OfTotal(list[..k], c);
      NumbersAppend(Of(list[..k], c), list[k].out);
      assert Of(list[..k], c) + [] == Of(list[..k], c);
    }
  }

  /** Which of a channel's commands expired. */
  function FlagsOf(list: seq<Command>, expired: seq<bool>, c: nat): seq<bool>
    requires |expired| == |list|
  {
    if list == [] then []
    else
      var k := |list| - 1;
      FlagsOf(list[..k], expired[..k], c) + if list[k].channel == c then [expired[k]] else []
  }

  lemma {:induction false} FilterView(list: seq<Command>, expired: seq<bool>, flag: bool, c: nat)
    requires |expired| == |list|
    ensures |FlagsOf(list, expired, c)| == |Of(list, c)|
    ensures Of(Filter(list, expired, flag), c) == Select(Of(list, c), FlagsOf(list, expired, c), flag)
  {
    hide Of, Select, Filter, FlagsOf;
    NoneLeft(c, flag);
    if list != [] {
      var k := |list| - 1;
      var rest, flags := list[..k], expired[..k];
      FilterView(rest, flags, flag, c);
      FilterLast(list, expired, flag, c);
      OfConcat(Filter(rest, flags, flag), [list[k]], c);
      OfOne(list[k], c);
      SelectAppend(Of(rest, c), FlagsOf(rest, flags, c), list[k].out, expired[k], flag);
      assert Of(rest, c) + [] == Of(rest, c) && FlagsOf(rest, flags, c) + [] == FlagsOf(rest, flags, c);
      var f := Of(Filter(rest, flags, flag), c);
      assert f + [] == f;
      assert Filter(rest, flags, flag) + [] == Filter(rest, flags, flag);
    }
  }

  lemma NoneLeft(c: nat, flag: bool)
    ensures Of([], c) == [] && Total([]) == 0
    ensures Filter([], [], flag) == [] && FlagsOf([], [], c) == [] && Select([], [], flag) == []
  {
  }

  lemma FilterLast(list: seq<Command>, expired: seq<bool>, flag: bool, c: nat)
    requires |expired| == |list| > 0
    ensures var k := |list| - 1;
            && Filter(list, expired, flag)
            == Filter(list[..k], expired[..k], flag) + (if expired[k] == flag then [list[k]] else [])
            && FlagsOf(list, expired, c)
            == FlagsOf(list[..k], expired[..k], c) + (if list[k].channel == c then [expired[k]] else [])
            && Of(list, c) == Of(list[..k], c) + (if list[k].channel == c then [list[k].out] else [])
  {
  }

  lemma SelectAppend(list: seq<Out>, expired: seq<bool>, o: Out, e: bool, flag: bool)
    requires |expired| == |list|
    ensures Select(list + [o], expired + [e], flag) == Select(list, expired, flag) + if e == flag then [o] else []
  {
    assert (list + [o])[..|list|] == list && (expired + [e])[..|list|] == expired;
  }

  lemma {:induction false} FilterTotal(list: seq<Command>, expired: seq<bool>)
    requires |expired| == |list|
    ensures Total(Filter(list, expired, true)) + Total(Filter(list, expired, false)) == Total(list)
    ensures forall flag, k :: 0 <= k < |Filter(list, expired, flag)| ==> Filter(list, expired, flag)[k] in list
  {
    hide Total;
    NoneLeft(0, true);
    if list != [] {
      var k := |list| - 1;
      FilterTotal(list[..k], expired[..k]);
      OfOne(list[k], 0);
      OfConcat(Filter(list[..k], expired[..k], true), [list[k]], 0);
      OfConcat(Filter(list[..k], expired[..k], false), [list[k]], 0);
      OfConcat(list[..k], [list[k]], 0);
      assert list == list[..k] + [list[k]];
      assert Filter(list[..k], expired[..k], !expired[k]) + [] == Filter(list[..k], expired[..k], !expired[k]);
    }
  }

  lemma ReturnView(p: Queues, expired: seq<bool>, d: nat)
    requires Ordered(p) && |expired| == |p.sent| && d < |p.channels|
    ensures |FlagsOf(p.sent, expired, d)| == |View(p, d).sent|
    ensures Ordered(Return(p, expired)) && Return(p, expired).inTransit <= p.inTransit
    ensures View(Return(p, expired), d) == Expire(View(p, d), FlagsOf(p.sent, expired, d))
  {
    hide Of, Total, TotalLength, Filter, FlagsOf, Select, Numbers;
    FilterTotal(p.sent, expired);
    FilterView(p.sent, expired, true, d);
    FilterView(p.sent, expired, false, d);
    OfConcat(Filter(p.sent, expired, true), p.outgoing, d);
    NumbersSelect(Of(p.sent, d), FlagsOf(p.sent, expired, d));
  }

  /** What a channel sees of a search and of a removal. */
  lemma {:induction false} FindView(list: seq<Command>, number: u16, c: nat)
    ensures var k := Find(list, number, c);
            && FindSent(Of(list, c), number) == |Of(list[..k], c)|
            && (k == |list| <==> |Of(list[..k], c)| == |Of(list, c)|)
  {
    hide FindSent, Of;
    if list == [] {
      NoneLeft(c, true);
      assert FindSent([], number) == 0;
      assert list[..0] == [];
    } else {
      OfFirst(list, c);
      var k := Find(list, number, c);
      if Is(list[0], number, c) {
        NoneLeft(c, true);
        assert list[..0] == [];
        FindSentFirst(Of(list, c), number);
      } else {
        FindView(list[1..], number, c);
        assert list[..k][1..] == list[1..][..k - 1];
        OfFirst(list[..k], c);
        if list[0].channel == c {
          FindSentFirst(Of(list, c), number);
          assert Of(list, c)[1..] == Of(list[1..], c);
        } else {
          assert Of(list, c) == Of(list[1..], c);
        }
      }
    }
  }

  lemma OfFirst(list: seq<Command>, c: nat)
    requires list != []
    ensures Of(list, c) == (if list[0].channel == c then [list[0].out] else []) + Of(list[1..], c)
  {
    assert list == [list[0]] + list[1..];
    OfConcat([list[0]], list[1..], c);
    OfOne(list[0], c);
  }

  lemma FindSentFirst(list: seq<Out>, number: u16)
    requires list != []
    ensures FindSent(list, number) == if list[0].number == number then 0 else 1 + FindSent(list[1..], number)
  {
  }

  /** Commands sent before come first. */
  ghost predicate AgainFirst(list: seq<Command>) {
    forall i, j :: 0 <= i < j < |list| && list[j].out.attempts >= 1 ==> list[i].out.attempts >= 1
  }

  lemma {:induction false} OfFresh(list: seq<Command>, c: nat)
    requires forall k :: 0 <= k < |list| ==> list[k].out.attempts < 1
    ensures forall k :: 0 <= k < |Of(list, c)| ==> Of(list, c)[k].attempts < 1
  {
    if list != [] {
      OfFresh(list[..|list| - 1], c);
    }
  }

  lemma {:induction false} FindAgainView(list: seq<Command>, number: u16, c: nat)
    requires AgainFirst(list)
    ensures var l := FindAgain(list, number, c);
            && FindResend(Of(list, c), number) == |Of(list[..l], c)|
            && (l == |list| <==> |Of(list[..l], c)| == |Of(list, c)|)
  {
    hide FindResend, Of;
    var l := FindAgain(list, number, c);
    if list == [] {
      NoneLeft(c, true);
      assert list[..0] == [];
      FindResendEnds([], number);
    } else if list[0].out.attempts < 1 {
      OfFresh(list, c);
      assert list[..l] == list;
      FindResendEnds(Of(list, c), number);
    } else {
      OfFirst(list, c);
      if Is(list[0], number, c) {
        NoneLeft(c, true);
        assert list[..0] == [];
        FindResendFirst(Of(list, c), number);
      } else {
        FindAgainView(list[1..], number, c);
        assert list[..l][1..] == list[1..][..l - 1];
        OfFirst(list[..l], c);
        if list[0].channel == c {
          FindResendFirst(Of(list, c), number);
          assert Of(list, c)[1..] == Of(list[1..], c);
        } else {
          assert Of(list, c) == Of(list[1..], c);
        }
      }
    }
  }

  lemma FindResendEnds(list: seq<Out>, number: u16)
    requires list == [] || list[0].attempts < 1
    ensures FindResend(list, number) == |list|
  {
  }

  lemma FindResendFirst(list: seq<Out>, number: u16)
    requires list != [] && list[0].attempts >= 1
    ensures FindResend(list, number) == if list[0].number == number then 0 else 1 + FindResend(list[1..], number)
  {
  }

  lemma DropView(list: seq<Command>, k: nat, d: nat)
    requires k < |list|
    ensures list[k].channel == d ==>
              && |Of(list[..k], d)| < |Of(list, d)|
              && Of(list, d)[|Of(list[..k], d)|] == list[k].out
              && Of(Drop(list, k), d) == Without(Of(list, d), |Of(list[..k], d)|)
    ensures list[k].channel != d ==> Of(Drop(list, k), d) == Of(list, d)
    ensures Total(list) == Total(Drop(list, k)) + list[k].out.length
  {
    hide Of, Total;
    var a, m, b := list[..k], list[k], list[k + 1..];
    assert list == (a + [m]) + b;
    OfConcat(a + [m], b, d);
    OfConcat(a, [m], d);
    OfConcat(a, b, d);
    OfOne(m, d);
    assert Of(a, d) + [] == Of(a, d);
  }

  lemma RemoveView(p: Queues, number: u16, c: nat, d: nat)
    requires Ordered(p) && c < |p.channels| && d < |p.channels|
    ensures Ordered(Remove(p, number, c)) && Remove(p, number, c).inTransit <= p.inTransit
    ensures View(Remove(p, number, c), d) == if d == c then Acknowledge(View(p, c), number) else View(p, d)
  {
    hide Of, Total, TotalLength, Find, FindAgain, FindSent, FindResend, Numbers;
    var k, l := Find(p.sent, number, c), FindAgain(p.outgoing, number, c);
    FindView(p.sent, number, c);
    FindAgainView(p.outgoing, number, c);
    if k < |p.sent| {
      DropView(p.sent, k, d);
      if d == c {
        NumbersWithout(Of(p.sent, c), |Of(p.sent[..k], c)|);
      }
    } else if l < |p.outgoing| {
      DropView(p.outgoing, l, d);
    }
  }
}
