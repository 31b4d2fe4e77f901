/**
 When a reliable command goes out and when it is held back, in numbers: the gate before a
 new window, and the data that may be in transit.
 */
module SendGate {
  import opened ReliableWindows
  import opened WindowBits
  import opened ReliableSender
  import opened OutgoingPeer

  /** The first command of a window, never sent, is held back while the window before has all
      its 4096 numbers counted, or any of the ten windows from its own on is in use. */
  predicate Gated(o: Out, windows: Counters, used: set<Window>) {
    && o.attempts == 0 && o.number % 4096 == 0
    && (windows[(o.number / 4096 + 15) % 16] >= 4096
        || exists j :: 0 <= j < 10 && InUse(used, o.number / 4096, j))
  }

  predicate InUse(used: set<Window>, w: int, j: int) {
    (w + j) % 16 in used
  }

  lemma HeldBackExactly(s: Sender, o: Out)
    ensures HeldBack(s, o) <==> Gated(o, s.windows, s.used)
  {
    hide Busy, InUse;
    var w := WindowOf(o);
    assert w == o.number / 4096;
    BusyExactly(s.used, w);
  }

  lemma BusyExactly(used: set<Window>, w: Window)
    ensures Busy(used, w) <==> exists j :: 0 <= j < 10 && InUse(used, w, j)
  {
    if Busy(used, w) {
      var v :| v in used && Masked(w, v);
      Behind(w, v);
      assert InUse(used, w, (v + 16 - w) % 16);
    }
    if j :| 0 <= j < 10 && InUse(used, w, j) {
      Onward(w, j);
      assert Masked(w, (w + j) % 16);
    }
  }

  lemma Behind(w: Window, v: Window)
    ensures (w + (v + 16 - w) % 16) % 16 == v
  {
  }

  lemma Onward(w: Window, j: int)
    requires 0 <= j < 10
    ensures ((w + j) % 16 + 16 - w) % 16 == j
  {
  }

  /** What the counters mean: the next command is held back exactly if it starts a window and
      of the window before every number is unacknowledged, or of the one seven before any. */
  lemma GateExactly(s: Sender, q: nat, newest: nat, last: nat)
    requires Sends(s, q, newest, last) && |s.outgoing| > 0
    ensures var n := s.outgoing[0].n;
            HeldBack(s, s.outgoing[0]) <==>
              && q == 0 && n % 4096 == 0
              && ((forall u :: n - 4096 <= u < n ==> u in Unacked(s, q))
                  || exists u :: u in Unacked(s, q) && u / 4096 + 7 == n / 4096)
  {
    hide InWindow, Numbers, TotalLength, Wire, Unacked, HeldBack, Labelled;
    var o := s.outgoing[0];
    AttemptsMean(s, q, newest, last);
    if q == 0 && o.n % 4096 == 0 {
      GateOpens(s, newest, last);
    } else {
      NotFirst(s, o);
    }
  }

  lemma AttemptsMean(s: Sender, q: nat, newest: nat, last: nat)
    requires Sends(s, q, newest, last) && |s.outgoing| > 0
    ensures var o := s.outgoing[0];
            && (o.attempts == 0 <==> q == 0) && o.number == Wire(o.n)
            && (q == 0 ==> o.n == newest + 1)
  {
    hide InWindow, Numbers, TotalLength, Wire, Unacked;
  }

  lemma NotFirst(s: Sender, o: Out)
    requires o.number == Wire(o.n) && (o.attempts != 0 || o.n % 4096 != 0)
    ensures !HeldBack(s, o)
  {
    WindowOfWire(o);
  }

  lemma GateOpens(s: Sender, newest: nat, last: nat)
    requires Sends(s, 0, newest, last) && |s.outgoing| > 0 && (newest + 1) % 4096 == 0
    ensures var n := newest + 1;
            HeldBack(s, s.outgoing[0]) <==>
              || (forall u :: n - 4096 <= u < n ==> u in Unacked(s, 0))
              || (exists u :: u in Unacked(s, 0) && u / 4096 + 7 == n / 4096)
  {
    hide InWindow, Numbers, TotalLength, Wire, Unacked, HeldBack, Labelled, Win, Masked;
    var o, w, m := s.outgoing[0], (newest + 1) / 4096, Unacked(s, 0);
    AttemptsMean(s, 0, newest, last);
    WindowOfWire(o);
    WindowStart(newest);
    HeldBackAt(s, o, w);
    Bounds(s, newest, last, w);
    var before: Window := (w + 15) % 16;
    FullExactly(m, w);
    forall v: Window ensures v in s.used <==> exists u :: u in m && Win(u) % 16 == v {
      UsedMeans(s, newest, last, v);
    }
    if u :| u in m && u / 4096 + 7 == w {
      SevenBack(w, u);
      assert Win(u) % 16 in s.used && Masked(w % 16, Win(u) % 16);
    }
    if v :| v in s.used && Masked(w % 16, v) {
      var u :| u in m && Win(u) % 16 == v;
      OnlySeven(w, u);
      assert u / 4096 + 7 == w;
    }
  }

  lemma WindowStart(newest: nat)
    requires (newest + 1) % 4096 == 0
    ensures var w := (newest + 1) / 4096;
            w >= 1 && newest + 1 == WINDOW_SIZE * w && Win(newest + 1) == w && Win(newest) == w - 1
  {
  }

  lemma HeldBackAt(s: Sender, o: Out, w: nat)
    requires o.attempts == 0 && o.number % WINDOW_SIZE == 0 && WindowOf(o) == w % 16
    ensures HeldBack(s, o) <==> s.windows[(w + 15) % 16] >= WINDOW_SIZE || exists v :: v in s.used && Masked(w % 16, v)
  {
    assert (w % 16 + 15) % 16 == (w + 15) % 16;
  }

  /** What is unacknowledged lies in the seven windows before. */
  lemma Bounds(s: Sender, newest: nat, last: nat, w: nat)
    requires Sends(s, 0, newest, last) && w >= 1 && Win(newest) == w - 1
    ensures forall u :: u in Unacked(s, 0) ==> w <= Win(u) + 7 && Win(u) < w
    ensures s.windows[(w + 15) % 16] == |InWindow(Unacked(s, 0), (w + 15) % 16)|
  {
    hide InWindow, Numbers, TotalLength, Wire, Unacked, Win, Labelled;
    forall u | u in Unacked(s, 0) ensures w <= Win(u) + 7 && Win(u) < w {
      WinMono(u, newest);
    }
  }

  lemma UsedMeans(s: Sender, newest: nat, last: nat, v: Window)
    requires Sends(s, 0, newest, last)
    ensures v in s.used <==> exists u :: u in Unacked(s, 0) && Win(u) % 16 == v
  {
    hide Numbers, TotalLength, Wire, Unacked, Win, Labelled;
    var set' := InWindow(Unacked(s, 0), v);
    if v in s.used {
      assert |set'| > 0;
      var u :| u in set';
    }
    if u :| u in Unacked(s, 0) && Win(u) % 16 == v {
      assert u in set';
    }
  }

  /** A window before is all unacknowledged exactly if 4096 numbers are counted in it. */
  lemma FullExactly(m: multiset<nat>, w: nat)
    requires w >= 1 && forall u :: u in m ==> w <= Win(u) + 7 && Win(u) < w
    ensures |InWindow(m, (w + 15) % 16)| >= WINDOW_SIZE <==>
            forall u :: WINDOW_SIZE * w - 4096 <= u < WINDOW_SIZE * w ==> u in m
  {
    hide Range;
    var lo, hi := WINDOW_SIZE * (w - 1), WINDOW_SIZE * w;
    var counted, all := InWindow(m, (w + 15) % 16), Range(lo, hi);
    RangeSize(lo, hi);
    assert (w + 15) % 16 == (w - 1) % 16;
    forall u | u in counted ensures u in all {
      assert Win(u) == w - 1;
    }
    if forall u :: lo <= u < hi ==> u in m {
      forall u | u in all ensures u in counted {
        WindowNumbers(w - 1, u);
      }
      SubsetSize(all, counted);
    }
    if |counted| >= WINDOW_SIZE {
      SameSize(counted, all);
      forall u | lo <= u < hi ensures u in m {
        assert u in all;
      }
    }
  }

  lemma SameSize(a: set<nat>, b: set<nat>)
    requires a <= b && |a| >= |b|
    ensures a == b
  {
    SubsetSize(a, b);
    assert b == a + (b - a);
  }

  lemma SevenBack(w: nat, u: nat)
    requires u / 4096 + 7 == w
    ensures Masked(w % 16, Win(u) % 16)
  {
  }

  lemma OnlySeven(w: nat, u: nat)
    requires w <= Win(u) + 7 && Win(u) < w && Masked(w % 16, Win(u) % 16)
    ensures u / 4096 + 7 == w
  {
  }

  // ----- the data in transit

  /** With a command more there would be too much in transit: more than fits in a datagram and
      more than the throttled window. */
  predicate TooMuch(inTransit: int, length: nat, throttle: nat, windowSize: nat, mtu: nat) {
    inTransit + length > mtu && inTransit + length > throttle * windowSize / 32
  }

  lemma LimitExactly(inTransit: int, length: nat, throttle: nat, windowSize: nat, mtu: nat)
    ensures inTransit + length <= TransitLimit(throttle, windowSize, mtu) <==>
            !TooMuch(inTransit, length, throttle, windowSize, mtu)
  {
  }

  /** The first waiting command may go exactly if the gate lets it and there is not too much. */
  predicate FirstMayGo(p: Queues, throttle: nat, windowSize: nat, mtu: nat)
    requires |p.outgoing| > 0 && p.outgoing[0].channel < |p.channels|
  {
    var m := p.outgoing[0];
    var h := p.channels[m.channel];
    !Gated(m.out, h.windows, h.used) && !TooMuch(p.inTransit, m.out.length, throttle, windowSize, mtu)
  }

  lemma SendableExactly(p: Queues, throttle: nat, windowSize: nat, mtu: nat)
    requires |p.outgoing| > 0 && p.outgoing[0].channel < |p.channels|
    ensures Sendable(p, TransitLimit(throttle, windowSize, mtu)) <==> FirstMayGo(p, throttle, windowSize, mtu)
  {
    hide Gated, HeldBack, TooMuch, TransitLimit;
    var m := p.outgoing[0];
    HeldBackExactly(View(p, m.channel), m.out);
    LimitExactly(p.inTransit, m.out.length, throttle, windowSize, mtu);
  }

  /** A command that may go and fits goes, and is counted as sent once more. */
  lemma {:induction false} FirstGoes(p: Queues, limit: nat, fits: nat)
    requires Sendable(p, limit) && fits > 0
    ensures var m := p.outgoing[0];
            p.sent + [m.(out := m.out.(attempts := m.out.attempts + 1))] <= SendWhile(p, limit, fits).sent
  {
    hide Sendable, HeldBack;
    SendableHas(p, limit);
    SentGrows(SendFirst(p), limit, fits - 1);
  }

  lemma SendableHas(p: Queues, limit: nat)
    requires Sendable(p, limit)
    ensures |p.outgoing| > 0 && p.outgoing[0].channel < |p.channels|
  {
  }

  lemma {:induction false} SentGrows(p: Queues, limit: nat, fits: nat)
    ensures p.sent <= SendWhile(p, limit, fits).sent
    decreases fits
  {
    hide Sendable;
    if fits > 0 && Sendable(p, limit) {
      SendableHas(p, limit);
      SentGrows(SendFirst(p), limit, fits - 1);
    }
  }
}
