/**
 The sending end of a reliable channel: commands waiting to be sent, commands sent and
 not yet acknowledged, and the window counters that hold new ones back.
 */
module ReliableSender {
  import opened Words
  import opened ReliableWindows
  import opened WindowBits

  const MAXIMUM_WINDOW_SIZE := 65536
  const PACKET_THROTTLE_SCALE := 32
  const MAXIMUM_MTU := 4096

  /** An outgoing command with its 16-bit number. `n` is the unbounded number that one
      stands for; no decision reads it. */
  datatype Out = Out(number: u16, n: nat, attempts: nat, length: nat)

  type Counters = c: seq<nat> | |c| == 16 witness seq(16, _ => 0)

  /** `number` is the last number given out; `sent` and `outgoing` are the queues of sent
      and of waiting commands, re-sends in front. */
  datatype Sender = Sender(number: u16, sent: seq<Out>, outgoing: seq<Out>,
    windows: Counters, used: set<Window>, inTransit: int)

  function WindowOf(o: Out): Window {
    o.number / WINDOW_SIZE
  }

  /** A command gets the next number and waits its turn. */
  function Enqueue(s: Sender, n: nat, length: nat): Sender {
    var number := U16(s.number + 1);
    s.(number := number, outgoing := s.outgoing + [Out(number, n, 0, length)])
  }

  /** The first command of a window is held back while the window before is all in
      flight, or any of the ten windows from its own on is in use. */
  predicate HeldBack(s: Sender, o: Out) {
    o.attempts < 1 && o.number % WINDOW_SIZE == 0 &&
    (s.windows[(WindowOf(o) + WINDOWS - 1) % WINDOWS] >= WINDOW_SIZE || Busy(s.used, WindowOf(o)))
  }

  /** The bound on reliable data in transit. */
  function TransitLimit(throttle: nat, windowSize: nat, mtu: nat): nat {
    var w := throttle * windowSize / PACKET_THROTTLE_SCALE;
    if w > mtu then w else mtu
  }

  predicate MaySend(s: Sender, limit: nat) {
    |s.outgoing| > 0 && !HeldBack(s, s.outgoing[0]) && s.inTransit + s.outgoing[0].length <= limit
  }

  /** The first waiting command goes out, counted in its window the first time. */
  function SendHead(s: Sender): Sender
    requires |s.outgoing| > 0
  {
    var o, w := s.outgoing[0], WindowOf(s.outgoing[0]);
    var first := o.attempts < 1;
    s.(sent := s.sent + [o.(attempts := o.attempts + 1)],
       outgoing := s.outgoing[1..],
       windows := if first then s.windows[w := s.windows[w] + 1] else s.windows,
       used := if first then s.used + {w} else s.used,
       inTransit := s.inTransit + o.length)
  }

  function TotalLength(list: seq<Out>): nat {
    if list == [] then 0 else TotalLength(list[..|list| - 1]) + list[|list| - 1].length
  }

  /** The commands whose flag in `expired` equals `flag`, in order. */
  function Select(list: seq<Out>, expired: seq<bool>, flag: bool): seq<Out>
    requires |expired| == |list|
  {
    if list == [] then []
    else
      var k := |list| - 1;
      Select(list[..k], expired[..k], flag) + if expired[k] == flag then [list[k]] else []
  }

  /** Timed-out commands go back in front of the waiting ones. */
  function Expire(s: Sender, expired: seq<bool>): Sender
    requires |expired| == |s.sent|
  {
    var back := Select(s.sent, expired, true);
    s.(sent := Select(s.sent, expired, false),
       outgoing := back + s.outgoing,
       inTransit := s.inTransit - TotalLength(back))
  }

  /** Where the first sent command with the number is; the length if there is none. */
  function FindSent(list: seq<Out>, number: u16): (k: nat)
    ensures k <= |list|
    ensures k < |list| ==> list[k].number == number
    ensures forall i :: 0 <= i < k ==> list[i].number != number
  {
    if list == [] then 0 else if list[0].number == number then 0 else 1 + FindSent(list[1..], number)
  }

  /** The same among the waiting commands that were sent before; the search ends at the
      first command never sent. */
  function FindResend(list: seq<Out>, number: u16): (k: nat)
    ensures k <= |list|
    ensures k < |list| ==> list[k].number == number && list[k].attempts >= 1
    ensures forall i :: 0 <= i < k && k < |list| ==> list[i].number != number && list[i].attempts >= 1
  {
    if list == [] || list[0].attempts < 1 then |list|
    else if list[0].number == number then 0
    else 1 + FindResend(list[1..], number)
  }

  function Uncount(s: Sender, w: Window): Sender {
    if s.windows[w] == 0 then s
    else s.(windows := s.windows[w := s.windows[w] - 1], used := if s.windows[w] == 1 then s.used - {w} else s.used)
  }

  function Without(list: seq<Out>, k: nat): seq<Out>
    requires k < |list|
  {
    list[..k] + list[k + 1..]
  }

  /** An acknowledgement removes the command with its number, if one was sent. */
  function Acknowledge(s: Sender, number: u16): Sender {
    var k, l := FindSent(s.sent, number), FindResend(s.outgoing, number);
    if k < |s.sent| then
      Uncount(s, number / WINDOW_SIZE).(sent := Without(s.sent, k), inTransit := s.inTransit - s.sent[k].length)
    else if l < |s.outgoing| then
      Uncount(s, number / WINDOW_SIZE).(outgoing := Without(s.outgoing, l))
    else s
  }

  // ----- what the queues and counters hold

  function Numbers(list: seq<Out>): multiset<nat> {
    if list == [] then multiset{} else Numbers(list[..|list| - 1]) + multiset{list[|list| - 1].n}
  }

  /** How many waiting commands were sent before. */
  ghost predicate Split(s: Sender, q: nat) {
    && q <= |s.outgoing|
    && (forall k :: 0 <= k < q ==> s.outgoing[k].attempts >= 1)
    && (forall k :: q <= k < |s.outgoing| ==> s.outgoing[k].attempts == 0)
  }

  ghost function Unacked(s: Sender, q: nat): multiset<nat>
    requires q <= |s.outgoing|
  {
    Numbers(s.sent) + Numbers(s.outgoing[..q])
  }

  ghost function InWindow(m: multiset<nat>, w: Window): set<nat> {
    set u | u in m && Win(u) % WINDOWS == w
  }

  ghost predicate Labelled(list: seq<Out>) {
    forall k :: 0 <= k < |list| ==> list[k].number == Wire(list[k].n)
  }

  /** Everything up to `newest` was sent at least once; the commands not acknowledged are
      in the queues once each, lie in the seven windows up to the newest one, and are
      what the window counters count; the rest up to `last` waits in order. */
  ghost predicate Sends(s: Sender, q: nat, newest: nat, last: nat) {
    && Split(s, q)
    && Labelled(s.sent) && Labelled(s.outgoing)
    && (forall k :: 0 <= k < |s.sent| ==> s.sent[k].attempts >= 1)
    && newest + (|s.outgoing| - q) == last && s.number == Wire(last)
    && (forall k :: q <= k < |s.outgoing| ==> s.outgoing[k].n == newest + 1 + (k - q))
    && (forall u :: u in Unacked(s, q) ==> 1 <= u <= newest && Win(newest) <= Win(u) + 6 && Unacked(s, q)[u] == 1)
    && (forall w: Window :: s.windows[w] == |InWindow(Unacked(s, q), w)|)
    && (forall w: Window :: w in s.used <==> s.windows[w] > 0)
    && s.inTransit == TotalLength(s.sent)
  }

  lemma {:induction false} NumbersMembers(list: seq<Out>)
    ensures forall u :: u in Numbers(list) <==> exists k :: 0 <= k < |list| && list[k].n == u
  {
    if list != [] {
      var k := |list| - 1;
      NumbersMembers(list[..k]);
      forall u ensures u in Numbers(list) <==> exists i :: 0 <= i < |list| && list[i].n == u {
        if u in Numbers(list[..k]) {
          var i :| 0 <= i < |list[..k]| && list[..k][i].n == u;
          assert list[i].n == u;
        }
        if i :| 0 <= i < |list| && list[i].n == u {
          if i < k {
            assert list[..k][i].n == u;
          }
        }
      }
    }
  }

  lemma {:induction false} NumbersConcat(a: seq<Out>, b: seq<Out>)
    ensures Numbers(a + b) == Numbers(a) + Numbers(b)
    ensures TotalLength(a + b) == TotalLength(a) + TotalLength(b)
  {
    hide Numbers, TotalLength;
    if b == [] {
      NumbersNone();
      assert a + b == a;
    } else {
      var c, o := b[..|b| - 1], b[|b| - 1];
      NumbersConcat(a, c);
      NumbersAppend(c, o);
      NumbersAppend(a + c, o);
      assert b == c + [o];
      assert a + b == a + c + [o];
    }
  }

  lemma {:induction false} NumbersSelect(list: seq<Out>, expired: seq<bool>)
    requires |expired| == |list|
    ensures Numbers(Select(list, expired, true)) + Numbers(Select(list, expired, false)) == Numbers(list)
    ensures TotalLength(Select(list, expired, true)) + TotalLength(Select(list, expired, false)) == TotalLength(list)
  {
    hide Numbers, TotalLength;
    NumbersNone();
    if list != [] {
      var k := |list| - 1;
      NumbersSelect(list[..k], expired[..k]);
      var a, b := Select(list[..k], expired[..k], true), Select(list[..k], expired[..k], false);
      NumbersAppend(a, list[k]);
      NumbersAppend(b, list[k]);
      NumbersAppend(list[..k], list[k]);
      assert list == list[..k] + [list[k]];
      assert a + [] == a && b + [] == b;
    }
  }

  lemma NumbersNone()
    ensures Numbers([]) == multiset{} && TotalLength([]) == 0
  {
  }

  lemma NumbersAppend(list: seq<Out>, o: Out)
    ensures Numbers(list + [o]) == Numbers(list) + multiset{o.n}
    ensures TotalLength(list + [o]) == TotalLength(list) + o.length
  {
    assert (list + [o])[..|list|] == list;
  }

  lemma NumbersOne(o: Out)
    ensures Numbers([o]) == multiset{o.n} && TotalLength([o]) == o.length
    ensures Numbers([]) == multiset{} && TotalLength([]) == 0
  {
    assert [o][..0] == [];
  }

  lemma {:induction false} SelectKeeps(list: seq<Out>, expired: seq<bool>, flag: bool)
    requires |expired| == |list| && Labelled(list)
    ensures Labelled(Select(list, expired, flag))
    ensures (forall k :: 0 <= k < |list| ==> list[k].attempts >= 1) ==>
            (forall k :: 0 <= k < |Select(list, expired, flag)| ==> Select(list, expired, flag)[k].attempts >= 1)
  {
    if list != [] {
      var k := |list| - 1;
      SelectKeeps(list[..k], expired[..k], flag);
    }
  }

  lemma NumbersWithout(list: seq<Out>, k: nat)
    requires k < |list|
    ensures Numbers(list) == Numbers(Without(list, k)) + multiset{list[k].n}
    ensures TotalLength(list) == TotalLength(Without(list, k)) + list[k].length
  {
    hide Numbers, TotalLength;
    var a, o, b := list[..k], list[k], list[k + 1..];
    NumbersConcat(a + [o], b);
    NumbersConcat(a, [o]);
    NumbersConcat(a, b);
    NumbersOne(o);
    assert list == (a + [o]) + b;
  }

  // ----- the steps keep it

  lemma Started()
    ensures Sends(Sender(0, [], [], seq(16, _ => 0), {}, 0), 0, 0, 0)
  {
    forall w: Window ensures InWindow(multiset{}, w) == {} {
    }
  }

  lemma EnqueueKeeps(s: Sender, q: nat, newest: nat, last: nat, length: nat)
    requires Sends(s, q, newest, last)
    ensures Sends(Enqueue(s, last + 1, length), q, newest, last + 1)
  {
    hide InWindow, Win, Numbers, TotalLength;
    var e := Enqueue(s, last + 1, length);
    assert e.outgoing[..q] == s.outgoing[..q];
    WireNext(last);
  }

  lemma WireNext(n: nat)
    ensures U16(Wire(n) + 1) == Wire(n + 1)
  {
  }

  /** Re-sending changes no counter. */
  lemma ResendKeeps(s: Sender, q: nat, newest: nat, last: nat)
    requires Sends(s, q, newest, last) && q > 0
    ensures Sends(SendHead(s), q - 1, newest, last)
    ensures Unacked(SendHead(s), q - 1) == Unacked(s, q)
  {
    hide InWindow, Win, Numbers, TotalLength, Wire;
    var d, o := SendHead(s), s.outgoing[0];
    var sentOnce := o.(attempts := o.attempts + 1);
    NumbersConcat(s.sent, [sentOnce]);
    NumbersOne(sentOnce);
    NumbersConcat([o], s.outgoing[1..q]);
    NumbersOne(o);
    assert s.outgoing[..q] == [o] + s.outgoing[1..q];
    assert d.outgoing[..q - 1] == s.outgoing[1..q];
    forall k | q - 1 <= k < |d.outgoing| ensures d.outgoing[k].n == newest + 1 + (k - (q - 1)) {
      assert d.outgoing[k] == s.outgoing[k + 1];
    }
    assert Unacked(d, q - 1) == Unacked(s, q);
    assert Split(d, q - 1) && Labelled(d.sent) && Labelled(d.outgoing);
  }

  lemma InWindowAdd(m: multiset<nat>, n: nat, w: Window)
    requires n !in m
    ensures InWindow(m + multiset{n}, w) == InWindow(m, w) + if Win(n) % WINDOWS == w then {n} else {}
    ensures |InWindow(m + multiset{n}, w)| == |InWindow(m, w)| + if Win(n) % WINDOWS == w then 1 else 0
  {
    assert InWindow(m + multiset{n}, w) == InWindow(m, w) + if Win(n) % WINDOWS == w then {n} else {};
  }

  lemma InWindowRemove(m: multiset<nat>, n: nat, w: Window)
    requires m[n] == 1
    ensures |InWindow(m, w)| == |InWindow(m - multiset{n}, w)| + if Win(n) % WINDOWS == w then 1 else 0
  {
    var k := m - multiset{n};
    assert m == k + multiset{n};
    InWindowAdd(k, n, w);
  }

  /** Where the number's window lies among the sixteen. */
  lemma WindowOfWire(o: Out)
    requires o.number == Wire(o.n)
    ensures WindowOf(o) == Win(o.n) % WINDOWS
    ensures o.number % WINDOW_SIZE == 0 <==> o.n == WINDOW_SIZE * Win(o.n)
  {
    WireWindow(o.n);
    var r := Wire(o.n);
    assert r == (r / WINDOW_SIZE) * WINDOW_SIZE + r % WINDOW_SIZE;
  }

  /** When the first number of a window passes the gate, nothing unacknowledged is left
      seven windows behind it. */
  lemma GateClears(s: Sender, q: nat, newest: nat, last: nat, u: nat)
    requires Sends(s, q, newest, last) && q == 0 && |s.outgoing| > 0 && !HeldBack(s, s.outgoing[0])
    requires u in Unacked(s, q)
    ensures Win(newest + 1) <= Win(u) + 6
  {
    hide InWindow, Win, Numbers, TotalLength, Wire, Unacked;
    var o := s.outgoing[0];
    WindowOfWire(o);
    WinNext(newest);
    if Win(newest + 1) > Win(newest) {
      NextWindowStarts(newest);
      if Win(u) + 7 == Win(newest + 1) {
        var v: Window := Win(u) % WINDOWS;
        assert Masked(WindowOf(o), v);
        UsedWindow(s, q, newest, last, u, v);
      }
    }
  }

  lemma WinNext(n: nat)
    ensures Win(n) <= Win(n + 1) <= Win(n) + 1
  {
  }

  lemma NextWindowStarts(n: nat)
    requires Win(n + 1) == Win(n) + 1
    ensures n + 1 == WINDOW_SIZE * Win(n + 1)
  {
  }

  lemma UsedWindow(s: Sender, q: nat, newest: nat, last: nat, u: nat, v: Window)
    requires Sends(s, q, newest, last) && u in Unacked(s, q) && Win(u) % WINDOWS == v
    ensures v in s.used
  {
    assert u in InWindow(Unacked(s, q), v);
  }

  /** A number sent for the first time joins the unacknowledged ones. */
  lemma FirstSendKeeps(s: Sender, newest: nat, last: nat)
    requires Sends(s, 0, newest, last) && |s.outgoing| > 0 && !HeldBack(s, s.outgoing[0])
    ensures Sends(SendHead(s), 0, newest + 1, last)
    ensures s.outgoing[0].n == newest + 1
    ensures Unacked(SendHead(s), 0) == Unacked(s, 0) + multiset{newest + 1}
  {
    hide InWindow, Win, Numbers, TotalLength, Wire;
    var d, o := SendHead(s), s.outgoing[0];
    var sentOnce := o.(attempts := o.attempts + 1);
    NumbersConcat(s.sent, [sentOnce]);
    NumbersOne(sentOnce);
    assert s.outgoing[..0] == [] && d.outgoing[..0] == [];
    var m := Unacked(s, 0);
    assert Unacked(d, 0) == m + multiset{newest + 1};
    forall u | u in Unacked(d, 0)
      ensures 1 <= u <= newest + 1 && Win(newest + 1) <= Win(u) + 6 && Unacked(d, 0)[u] == 1
    {
      if u in m {
        GateClears(s, 0, newest, last, u);
      }
    }
    WindowOfWire(o);
    forall w: Window ensures d.windows[w] == |InWindow(Unacked(d, 0), w)| {
      InWindowAdd(m, newest + 1, w);
    }
  }

  lemma ExpireKeeps(s: Sender, q: nat, newest: nat, last: nat, expired: seq<bool>)
    requires Sends(s, q, newest, last) && |expired| == |s.sent|
    ensures var q' := q + |Select(s.sent, expired, true)|;
            Sends(Expire(s, expired), q', newest, last) && Unacked(Expire(s, expired), q') == Unacked(s, q)
  {
    hide InWindow, Win, Numbers, TotalLength, Wire, Select;
    var d, back := Expire(s, expired), Select(s.sent, expired, true);
    NumbersSelect(s.sent, expired);
    SelectKeeps(s.sent, expired, true);
    SelectKeeps(s.sent, expired, false);
    NumbersConcat(back, s.outgoing[..q]);
    assert d.outgoing[..q + |back|] == back + s.outgoing[..q];
    forall k | q + |back| <= k < |d.outgoing| ensures d.outgoing[k].n == newest + 1 + (k - (q + |back|)) {
      assert d.outgoing[k] == s.outgoing[k - |back|];
    }
    assert Unacked(d, q + |back|) == Unacked(s, q);
    assert Split(d, q + |back|) && Labelled(d.sent) && Labelled(d.outgoing);
  }

  /** The acknowledgement of an unacknowledged number finds that command and no other. */
  lemma AcknowledgedIsFound(s: Sender, q: nat, newest: nat, last: nat, a: nat)
    requires Sends(s, q, newest, last) && 1 <= a <= newest && Win(newest) <= Win(a) + 15
    ensures var k := FindSent(s.sent, Wire(a)); k < |s.sent| ==> s.sent[k].n == a
    ensures var l := FindResend(s.outgoing, Wire(a)); l < |s.outgoing| ==> l < q && s.outgoing[l].n == a
    ensures a in Unacked(s, q) ==>
              FindSent(s.sent, Wire(a)) < |s.sent| || FindResend(s.outgoing, Wire(a)) < |s.outgoing|
  {
    hide InWindow, TotalLength, Wire, Numbers, Win, FindSent, FindResend;
    var k, l := FindSent(s.sent, Wire(a)), FindResend(s.outgoing, Wire(a));
    NumbersMembers(s.sent);
    NumbersMembers(s.outgoing[..q]);
    if k < |s.sent| {
      assert s.sent[k].n in Numbers(s.sent) && s.sent[k].n in Unacked(s, q);
      CloseNumbers(a, s.sent[k].n, newest);
      WireInjective(a, s.sent[k].n);
    }
    if l < |s.outgoing| {
      assert s.outgoing[..q][l] == s.outgoing[l];
      assert s.outgoing[l].n in Numbers(s.outgoing[..q]) && s.outgoing[l].n in Unacked(s, q);
      CloseNumbers(a, s.outgoing[l].n, newest);
      WireInjective(a, s.outgoing[l].n);
    }
    if a in Numbers(s.outgoing[..q]) {
      var i :| 0 <= i < q && s.outgoing[..q][i].n == a;
      FindResendFinds(s.outgoing, q, i, Wire(a));
    }
  }

  lemma CloseNumbers(a: nat, b: nat, newest: nat)
    requires a <= newest && b <= newest && Win(newest) <= Win(a) + 15 && Win(newest) <= Win(b) + 15
    ensures a < b + TWO16 && b < a + TWO16
  {
    WinMono(a, newest);
    WinMono(b, newest);
  }

  lemma {:induction false} FindResendFinds(list: seq<Out>, q: nat, i: nat, number: u16)
    requires i < q <= |list| && list[i].number == number
    requires forall k :: 0 <= k < q ==> list[k].attempts >= 1
    ensures FindResend(list, number) <= i
  {
    if list[0].number != number {
      FindResendFinds(list[1..], q - 1, i - 1, number);
    }
  }

  ghost function AfterAck(s: Sender, q: nat, number: u16): nat {
    if FindSent(s.sent, number) == |s.sent| && FindResend(s.outgoing, number) < |s.outgoing| && q > 0 then q - 1 else q
  }

  /** An acknowledgement, repeated or not, takes exactly its number out of the
      unacknowledged ones. */
  lemma AcknowledgeKeeps(s: Sender, q: nat, newest: nat, last: nat, a: nat)
    requires Sends(s, q, newest, last) && 1 <= a <= newest && Win(newest) <= Win(a) + 15
    ensures var d, q' := Acknowledge(s, Wire(a)), AfterAck(s, q, Wire(a));
            && Sends(d, q', newest, last)
            && Unacked(d, q') == Unacked(s, q) - multiset{a}
  {
    hide InWindow, TotalLength, Wire, Numbers, Win, FindSent, FindResend, Uncount, Sends, Split, Labelled;
    AcknowledgedIsFound(s, q, newest, last, a);
    Splits(s, q, newest, last);
    var k, l := FindSent(s.sent, Wire(a)), FindResend(s.outgoing, Wire(a));
    if k < |s.sent| {
      SentRemoved(s, q, newest, last, a, k);
    } else if l < |s.outgoing| {
      ResendRemoved(s, q, newest, last, a, l);
    } else {
      assert Unacked(s, q) - multiset{a} == Unacked(s, q);
    }
  }

  lemma Splits(s: Sender, q: nat, newest: nat, last: nat)
    requires Sends(s, q, newest, last)
    ensures Split(s, q)
  {
  }

  lemma SentRemoved(s: Sender, q: nat, newest: nat, last: nat, a: nat, k: nat)
    requires Sends(s, q, newest, last) && k < |s.sent| && s.sent[k].n == a
    ensures Wire(a) / WINDOW_SIZE < WINDOWS
    ensures var d := Uncount(s, Wire(a) / WINDOW_SIZE).(sent := Without(s.sent, k),
                                                        inTransit := s.inTransit - s.sent[k].length);
            Sends(d, q, newest, last) && Unacked(d, q) == Unacked(s, q) - multiset{a}
  {
    hide InWindow, TotalLength, Wire, Numbers, Win, Uncount;
    NumbersWithout(s.sent, k);
    Counted(s, q, newest, last, a);
    UncountKeeps(s, q, newest, last, a);
    var d := Uncount(s, Wire(a) / WINDOW_SIZE).(sent := Without(s.sent, k),
                                                inTransit := s.inTransit - s.sent[k].length);
    assert Unacked(d, q) == Unacked(s, q) - multiset{a};
    RestNumbers(Unacked(s, q), a);
  }

  lemma ResendRemoved(s: Sender, q: nat, newest: nat, last: nat, a: nat, l: nat)
    requires Sends(s, q, newest, last) && l < q <= |s.outgoing| && s.outgoing[l].n == a
    ensures Wire(a) / WINDOW_SIZE < WINDOWS
    ensures var d := Uncount(s, Wire(a) / WINDOW_SIZE).(outgoing := Without(s.outgoing, l));
            Sends(d, q - 1, newest, last) && Unacked(d, q - 1) == Unacked(s, q) - multiset{a}
  {
    hide InWindow, TotalLength, Wire, Numbers, Win, Uncount;
    NumbersWithout(s.outgoing[..q], l);
    Counted(s, q, newest, last, a);
    UncountKeeps(s, q, newest, last, a);
    var d := Uncount(s, Wire(a) / WINDOW_SIZE).(outgoing := Without(s.outgoing, l));
    assert d.outgoing[..q - 1] == Without(s.outgoing[..q], l);
    assert Unacked(d, q - 1) == Unacked(s, q) - multiset{a};
    RestNumbers(Unacked(s, q), a);
    forall i | q - 1 <= i < |d.outgoing| ensures d.outgoing[i] == s.outgoing[i + 1] {
    }
  }

  lemma RestNumbers(m: multiset<nat>, a: nat)
    ensures forall u :: u in m - multiset{a} ==> u in m && (m - multiset{a})[u] <= m[u]
  {
  }

  lemma Counted(s: Sender, q: nat, newest: nat, last: nat, a: nat)
    requires Sends(s, q, newest, last) && a in Unacked(s, q)
    ensures Unacked(s, q)[a] == 1 && s.windows[Win(a) % WINDOWS] > 0
    ensures Wire(a) / WINDOW_SIZE == Win(a) % WINDOWS
  {
    assert a in InWindow(Unacked(s, q), Win(a) % WINDOWS);
    WireWindow(a);
  }

  lemma UncountKeeps(s: Sender, q: nat, newest: nat, last: nat, a: nat)
    requires Sends(s, q, newest, last) && a in Unacked(s, q) && Unacked(s, q)[a] == 1
    requires s.windows[Win(a) % WINDOWS] > 0
    ensures var d := Uncount(s, Win(a) % WINDOWS);
            && d == s.(windows := d.windows, used := d.used)
            && (forall w: Window :: d.windows[w] == |InWindow(Unacked(s, q) - multiset{a}, w)|)
            && (forall w: Window :: w in d.used <==> d.windows[w] > 0)
  {
    hide InWindow, Win, Numbers, TotalLength, Wire;
    forall w: Window ensures Uncount(s, Win(a) % WINDOWS).windows[w] == |InWindow(Unacked(s, q) - multiset{a}, w)| {
      InWindowRemove(Unacked(s, q), a, w);
    }
  }

  /** The window test before a new window: if every number of the window before it were
      unacknowledged, the counter would stop the sender. */
  lemma FullWindowHoldsBack(s: Sender, newest: nat, last: nat, w: nat)
    requires Sends(s, 0, newest, last) && |s.outgoing| > 0
    requires newest + 1 == WINDOW_SIZE * w && w >= 1 && s.outgoing[0].n == newest + 1
    requires forall n :: WINDOW_SIZE * (w - 1) <= n < WINDOW_SIZE * w ==> n in Unacked(s, 0)
    ensures HeldBack(s, s.outgoing[0])
  {
    hide Win, Wire, Numbers, TotalLength, Busy, Unacked, InWindow, Range;
    var o := s.outgoing[0];
    WindowOfWire(o);
    WindowNumbers(w, newest + 1);
    FullWindow(Unacked(s, 0), w - 1);
    var v: Window := (w - 1) % WINDOWS;
    assert s.windows[v] >= WINDOW_SIZE;
    assert (WindowOf(o) + WINDOWS - 1) % WINDOWS == v;
  }

  lemma FullWindow(m: multiset<nat>, w: nat)
    requires forall n :: WINDOW_SIZE * w <= n < WINDOW_SIZE * (w + 1) ==> n in m
    ensures |InWindow(m, w % WINDOWS)| >= WINDOW_SIZE
  {
    hide Win, Range;
    var all := Range(WINDOW_SIZE * w, WINDOW_SIZE * (w + 1));
    RangeSize(WINDOW_SIZE * w, WINDOW_SIZE * (w + 1));
    forall n | n in all ensures n in InWindow(m, w % WINDOWS) {
      WindowNumbers(w, n);
    }
    SubsetSize(all, InWindow(m, w % WINDOWS));
  }

  lemma WindowNumbers(w: nat, n: nat)
    requires WINDOW_SIZE * w <= n < WINDOW_SIZE * (w + 1)
    ensures Win(n) == w
  {
  }

  ghost function Range(lo: nat, hi: nat): set<nat>
    requires lo <= hi
    decreases hi - lo
  {
    if lo == hi then {} else Range(lo, hi - 1) + {hi - 1}
  }

  lemma {:induction false} RangeSize(lo: nat, hi: nat)
    requires lo <= hi
    ensures |Range(lo, hi)| == hi - lo
    ensures forall n :: n in Range(lo, hi) <==> lo <= n < hi
    decreases hi - lo
  {
    if lo < hi {
      RangeSize(lo, hi - 1);
    }
  }

  lemma {:induction false} SubsetSize(a: set<nat>, b: set<nat>)
    requires a <= b
    ensures |a| <= |b|
  {
    assert b == a + (b - a);
  }
}
