/**
 Unsequenced delivery: packets are numbered by groups, the receiver keeps the window of
 1024 groups it saw last in a bitmap that it reuses, and group numbers wrap.
 */
module Unsequenced {
  import opened Words
  import opened ReliableWindows

  const GROUPS := 1024
  const FREE_GROUPS := 32 * 1024

  /** `base` is the first group of the window, `seen` the groups' places in it. */
  datatype Window = Window(base: u16, seen: seq<bool>)

  datatype Outcome = Queued | Ignored | Failed

  function Blank(): (seen: seq<bool>)
    ensures |seen| == GROUPS && forall p :: 0 <= p < GROUPS ==> !seen[p]
  {
    seq(GROUPS, _ => false)
  }

  /** Whether a group is at or ahead of the base, by less than half a round. */
  predicate InRange(group: u16, base: u16) {
    (if group < base then group + TWO16 else group) < base + FREE_GROUPS
  }

  /** An unsequenced packet arrives; `room` tells whether the peer can queue it. A group
      from another window moves the window there, even when the packet is then refused. */
  function Handle(w: Window, group: u16, room: bool): (Window, Outcome)
    requires |w.seen| == GROUPS
  {
    var place := group % GROUPS;
    if !InRange(group, w.base) then (w, Ignored)
    else if group - place == w.base && w.seen[place] then (w, Ignored)
    else
      var v := if group - place != w.base then Window(group - place, Blank()) else w;
      if room then (v.(seen := v.seen[place := true]), Queued) else (v, Failed)
  }

  /** The same, in place. */
  class Peer {
    var incomingUnsequencedGroup: u16
    const unsequencedWindow: array<bool>

    ghost predicate Valid()
      reads this, unsequencedWindow
    {
      unsequencedWindow.Length == GROUPS
    }

    ghost function Value(): (w: Window)
      reads this, unsequencedWindow
      ensures Valid() ==> |w.seen| == GROUPS
    {
      Window(incomingUnsequencedGroup, unsequencedWindow[..])
    }

    constructor ()
      ensures Valid() && Value() == Window(0, Blank()) && fresh(unsequencedWindow)
    {
      incomingUnsequencedGroup := 0;
      unsequencedWindow := new bool[GROUPS](_ => false);
      new;
      assert unsequencedWindow[..] == Blank();
    }

    method Clear()
      requires Valid()
      modifies unsequencedWindow
      ensures unsequencedWindow[..] == Blank()
    {
      var i := 0;
      while i < unsequencedWindow.Length
        invariant 0 <= i <= unsequencedWindow.Length
        invariant forall j :: 0 <= j < i ==> !unsequencedWindow[j]
      {
        unsequencedWindow[i] := false;
        i := i + 1;
      }
    }

    method HandleSendUnsequenced(group: u16, room: bool) returns (outcome: Outcome)
      requires Valid()
      modifies this, unsequencedWindow
      ensures Valid() && (Value(), outcome) == Handle(old(Value()), group, room)
    {
      var unsequencedGroup: int, index: nat := group, group % GROUPS;
      if group < incomingUnsequencedGroup {
        unsequencedGroup := unsequencedGroup + TWO16;
      }
      if unsequencedGroup >= incomingUnsequencedGroup + FREE_GROUPS {
        return Ignored;
      }
      unsequencedGroup := unsequencedGroup % TWO16;
      assert unsequencedGroup == group;
      if unsequencedGroup - index != incomingUnsequencedGroup {
        incomingUnsequencedGroup := unsequencedGroup - index;
        Clear();
      } else if unsequencedWindow[index] {
        return Ignored;
      }
      if !room {
        return Failed;
      }
      unsequencedWindow[index] := true;
      return Queued;
    }
  }

  // ----- runs

  /** The first group of `n`'s window, and the place of `n` in it. */
  function StartOf(n: nat): nat {
    n - n % GROUPS
  }

  function Place(n: nat): nat {
    n % GROUPS
  }

  /** The receiver, the unbounded number its base stands for, and the groups it queued,
      in order. */
  datatype System = System(window: Window, base: nat, queued: seq<nat>)

  const START := System(Window(0, Blank()), 0, [])

  /** A copy of group `n` arrives. */
  function Arrive(y: System, n: nat, room: bool): System
    requires |y.window.seen| == GROUPS
  {
    var (w, outcome) := Handle(y.window, Wire(n), room);
    System(w, if InRange(Wire(n), y.window.base) then StartOf(n) else y.base,
           if outcome.Queued? then y.queued + [n] else y.queued)
  }

  /** The assumption on the network: no copy is more than 32 windows behind the base. */
  predicate Fresh(y: System, n: nat) {
    y.base <= n + FREE_GROUPS
  }

  ghost predicate Run(run: seq<System>) {
    && |run| > 0 && run[0] == START
    && forall k :: 0 <= k < |run| - 1 ==> Step(run[k], run[k + 1])
  }

  ghost predicate Step(y: System, z: System) {
    |y.window.seen| == GROUPS && exists n: nat, room :: Fresh(y, n) && z == Arrive(y, n, room)
  }

  ghost predicate Based(y: System) {
    |y.window.seen| == GROUPS && y.window.base == Wire(y.base) && StartOf(y.base) == y.base
  }

  /** Every queued group of the current window is marked. Marks left over from a round
      before may be there too; they can only have a packet ignored. */
  ghost predicate Marked(y: System)
    requires |y.window.seen| == GROUPS
  {
    forall i :: 0 <= i < |y.queued| ==>
      y.queued[i] < y.base + GROUPS && (y.queued[i] >= y.base ==> y.window.seen[y.queued[i] - y.base])
  }

  ghost predicate Distinct(list: seq<nat>) {
    forall i, j :: 0 <= i < j < |list| ==> list[i] != list[j]
  }

  ghost predicate Good(y: System) {
    Based(y) && Marked(y) && Distinct(y.queued)
  }

  /** Seen from a base less than a round ahead, a group behind passes the range test
      exactly when it is more than 32 windows behind. */
  lemma BehindInRange(n: nat, base: nat)
    requires n < base < n + TWO16
    ensures InRange(Wire(n), Wire(base)) <==> base > n + FREE_GROUPS
  {
    Rounds(n);
    Rounds(base);
    assert base / TWO16 == n / TWO16 || base / TWO16 == n / TWO16 + 1;
  }

  /** A group ahead passes exactly when it is less than 32 windows ahead. */
  lemma AheadInRange(n: nat, base: nat)
    requires base <= n < base + TWO16
    ensures InRange(Wire(n), Wire(base)) <==> n < base + FREE_GROUPS
  {
    Rounds(n);
    Rounds(base);
    assert n / TWO16 == base / TWO16 || n / TWO16 == base / TWO16 + 1;
  }

  lemma Rounds(n: nat)
    ensures n == n / TWO16 * TWO16 + n % TWO16
    ensures n % TWO16 % GROUPS == n % GROUPS
  {
    var q, r := n / TWO16, n % TWO16;
    var p, s := r / GROUPS, r % GROUPS;
    assert n == q * TWO16 + r && r == p * GROUPS + s;
    assert n == (64 * q + p) * GROUPS + s;
    GroupRemainder(64 * q + p, s);
  }

  lemma GroupRemainder(k: nat, s: nat)
    requires s < GROUPS
    ensures (k * GROUPS + s) % GROUPS == s
  {
  }

  lemma PlaceFacts(n: nat)
    ensures StartOf(n) + Place(n) == n && Place(n) < GROUPS && StartOf(StartOf(n)) == StartOf(n)
    ensures Wire(n) % GROUPS == Place(n) && Wire(n) - Place(n) == Wire(StartOf(n))
  {
    Rounds(n);
    StartOfStart(n);
    Rounds(StartOf(n));
  }

  lemma StartOfStart(n: nat)
    ensures StartOf(n) % GROUPS == 0 && StartOf(StartOf(n)) == StartOf(n)
  {
    assert StartOf(n) == n / GROUPS * GROUPS;
  }

  lemma StartMono(a: nat, b: nat)
    requires a <= b && StartOf(a) == a
    ensures a <= StartOf(b) && (StartOf(b) != a ==> a + GROUPS <= StartOf(b))
  {
    assert b / GROUPS >= a / GROUPS;
  }

  /** What an arrival does, in unbounded numbers. */
  lemma ArriveMeans(y: System, n: nat, room: bool)
    requires Based(y)
    ensures Place(n) < GROUPS
    ensures Arrive(y, n, room) ==
            if !InRange(Wire(n), y.window.base) then y
            else
              var same := Wire(StartOf(n)) == y.window.base;
              var w := if same then y.window else Window(Wire(StartOf(n)), Blank());
              if same && w.seen[Place(n)] then y.(base := StartOf(n))
              else if room then System(w.(seen := w.seen[Place(n) := true]), StartOf(n), y.queued + [n])
              else System(w, StartOf(n), y.queued)
  {
    hide InRange;
    PlaceFacts(n);
  }

  lemma ArriveKeeps(y: System, n: nat, room: bool)
    requires Good(y) && Fresh(y, n)
    ensures Good(Arrive(y, n, room))
  {
    hide InRange, Wire, StartOf, Place, Arrive, Handle;
    ArriveMeans(y, n, room);
    if InRange(Wire(n), y.window.base) {
      if n < y.base {
        BehindInRange(n, y.base);
      }
      PlaceFacts(n);
      StartMono(y.base, n);
      var z := Arrive(y, n, room);
      assert Based(z);
      forall i | 0 <= i < |y.queued| ensures y.queued[i] != n || z.queued == y.queued {
      }
    }
  }

  /** At most once: over every run each group is queued at most once, although the bitmap
      is reused and the numbers wrap. */
  lemma {:induction false} AtMostOnce(run: seq<System>, k: nat)
    requires Run(run) && k < |run|
    ensures Good(run[k])
    ensures forall i, j :: 0 <= i < j < |run[k].queued| ==> run[k].queued[i] != run[k].queued[j]
  {
    hide Handle, InRange, Arrive;
    if k > 0 {
      AtMostOnce(run, k - 1);
      assert Step(run[k - 1], run[k - 1 + 1]);
      var n: nat, room :| Fresh(run[k - 1], n) && run[k] == Arrive(run[k - 1], n, room);
      ArriveKeeps(run[k - 1], n, room);
    }
  }

  // ----- which copies are queued

  /** Marks stand only for groups that were queued. */
  ghost predicate Exact(y: System) {
    Good(y) && forall p :: 0 <= p < GROUPS && y.window.seen[p] ==> y.base + p in y.queued
  }

  /** While no copy is a round ahead either, a copy is queued exactly when it is at the
      base or less than 32 windows ahead of it, was not queued before, and there is room. */
  lemma QueuedExactly(y: System, n: nat, room: bool)
    requires Exact(y) && Fresh(y, n) && n < y.base + TWO16
    ensures var z := Arrive(y, n, room);
            && Exact(z)
            && z.queued == (if y.base <= n < y.base + FREE_GROUPS && n !in y.queued && room then y.queued + [n]
                            else y.queued)
  {
    hide InRange, Wire, StartOf, Place, Arrive, Handle, Blank, Exact;
    ExactFacts(y);
    ArriveMeans(y, n, room);
    if n < y.base {
      BehindInRange(n, y.base);
    } else {
      AheadInRange(n, y.base);
      PlaceFacts(n);
      StartMono(y.base, n);
      SameWindow(StartOf(n), y.base);
      if n < y.base + FREE_GROUPS {
        if StartOf(n) == y.base {
          InThisWindow(y, n, room);
        } else {
          InNextWindow(y, n, room);
        }
      }
    }
  }

  lemma ExactFacts(y: System)
    requires Exact(y)
    ensures Based(y)
  {
  }

  lemma InThisWindow(y: System, n: nat, room: bool)
    requires Exact(y) && Fresh(y, n) && InRange(Wire(n), y.window.base) && StartOf(n) == y.base
    ensures var z := Arrive(y, n, room);
            Exact(z) && z.queued == (if n !in y.queued && room then y.queued + [n] else y.queued)
  {
    hide InRange, Wire, StartOf, Place, Arrive, Handle, Blank, Good;
    ExactFacts(y);
    ArriveKeeps(y, n, room);
    ArriveMeans(y, n, room);
    PlaceFacts(n);
    MarkedIfQueued(y, n);
    var z := Arrive(y, n, room);
    if room && n !in y.queued {
      assert z == System(y.window.(seen := y.window.seen[Place(n) := true]), y.base, y.queued + [n]);
    } else {
      assert z == y;
    }
  }

  lemma MarkedIfQueued(y: System, n: nat)
    requires Good(y) && StartOf(n) == y.base
    ensures Place(n) < GROUPS && (n in y.queued ==> y.window.seen[Place(n)])
  {
    PlaceFacts(n);
    if i :| 0 <= i < |y.queued| && y.queued[i] == n {
    }
  }

  lemma InNextWindow(y: System, n: nat, room: bool)
    requires Exact(y) && Fresh(y, n) && InRange(Wire(n), y.window.base) && y.base + GROUPS <= StartOf(n)
    requires Wire(StartOf(n)) != y.window.base
    ensures var z := Arrive(y, n, room);
            Exact(z) && n !in y.queued && z.queued == (if room then y.queued + [n] else y.queued)
  {
    hide InRange, Wire, StartOf, Place, Arrive, Handle, Blank;
    ArriveKeeps(y, n, room);
    ArriveMeans(y, n, room);
    PlaceFacts(n);
    var z := Arrive(y, n, room);
    forall p | 0 <= p < GROUPS && z.window.seen[p] ensures z.base + p in z.queued {
      assert p == Place(n) && z.queued == y.queued + [n];
    }
  }

  lemma SameWindow(b: nat, base: nat)
    requires base <= b < base + TWO16
    ensures Wire(b) == Wire(base) <==> b == base
  {
    Rounds(b);
    Rounds(base);
  }

  // ----- copies that are not fresh

  /** A copy behind the base, by at most one round of windows, is queued exactly when it
      breaks the assumption; from a base exactly one round ahead, only if its place is
      not marked. */
  lemma StaleQueuedExactly(y: System, n: nat)
    requires Based(y) && n < y.base <= StartOf(n) + TWO16
    ensures Place(n) < GROUPS
    ensures Arrive(y, n, true).queued == y.queued + [n] <==>
            !Fresh(y, n) && (y.base == StartOf(n) + TWO16 ==> !y.window.seen[Place(n)])
  {
    hide InRange, StartOf, Place, Arrive, Handle, Blank, Wire;
    ArriveMeans(y, n, true);
    PlaceFacts(n);
    assert y.queued + [n] != y.queued;
    if y.base < StartOf(n) + TWO16 {
      BehindInRange(n, y.base);
      StartBelow(n, y.base);
      SameWindow(y.base, StartOf(n));
    } else {
      RoundAhead(n, y.base);
    }
  }

  lemma StartBelow(n: nat, base: nat)
    requires n < base
    ensures StartOf(n) <= base && StartOf(n) != base
  {
  }

  /** Seen from a base one round ahead of its window, a copy looks like one in the window. */
  lemma RoundAhead(n: nat, base: nat)
    requires base == StartOf(n) + TWO16
    ensures Wire(StartOf(n)) == Wire(base) && InRange(Wire(n), Wire(base)) && base > n + FREE_GROUPS
  {
    PlaceFacts(n);
    RoundAdded(StartOf(n));
    hide StartOf, Place;
    assert Wire(n) == Wire(base) + Place(n);
  }

  lemma RoundAdded(n: nat)
    ensures Wire(n + TWO16) == Wire(n)
  {
  }

  /** The window that a copy behind the base seems to be in: whole rounds do not show. */
  function Folded(n: nat, base: nat): (m: nat)
    requires n < base && StartOf(base) == base
    ensures m % TWO16 == n % TWO16 && m < base <= StartOf(m) + TWO16
  {
    var k: nat := (base - StartOf(n) - 1) / TWO16;
    FoldedFacts(n, base, k);
    n + k * TWO16
  }

  lemma FoldedFacts(n: nat, base: nat, k: nat)
    requires n < base && StartOf(base) == base && k == (base - StartOf(n) - 1) / TWO16
    ensures (n + k * TWO16) % TWO16 == n % TWO16
    ensures n + k * TWO16 < base <= StartOf(n + k * TWO16) + TWO16
  {
    hide StartOf, Place;
    var m, d := n + k * TWO16, base - StartOf(n) - 1;
    RoundsOn(n, k);
    PlaceFacts(n);
    assert d == k * TWO16 + d % TWO16;
    if base <= m {
      StartMono(base, m);
    }
  }

  lemma RoundsOn(n: nat, k: nat)
    ensures (n + k * TWO16) % TWO16 == n % TWO16
    ensures StartOf(n + k * TWO16) == StartOf(n) + k * TWO16
  {
    var m := n + k * TWO16;
    ModAdd(n, k, TWO16);
    ModAdd(n, k * (TWO16 / GROUPS), GROUPS);
    assert k * (TWO16 / GROUPS) * GROUPS == k * TWO16;
  }

  lemma ModAdd(n: nat, k: nat, m: nat)
    requires m > 0
    ensures (n + k * m) % m == n % m
    decreases k
  {
    if k > 0 {
      ModAdd(n, k - 1, m);
      assert n + k * m == n + (k - 1) * m + m;
      ModStep(n + (k - 1) * m, m);
    }
  }

  lemma ModStep(a: nat, m: nat)
    requires m > 0
    ensures (a + m) % m == a % m
  {
    assert a == a / m * m + a % m;
    assert a + m == (a / m + 1) * m + a % m;
    DivUnique(a / m + 1, a % m, m);
  }

  lemma DivUnique(q: nat, r: nat, m: nat)
    requires r < m
    ensures (q * m + r) % m == r
  {
    var b := q * m + r;
    var q', r' := b / m, b % m;
    assert b == q' * m + r';
    if q' < q {
      MulLe(q' + 1, q, m);
    } else if q < q' {
      MulLe(q + 1, q', m);
    }
  }

  /** At most once, exactly: after any run so far, a copy of any group leaves every group
      queued at most once if and only if it is new, or at or ahead of the base, or seems
      fresh, or seems to be in the window with its place marked. */
  lemma OnceExactly(y: System, n: nat)
    requires Good(y)
    ensures Place(n) < GROUPS
    ensures Distinct(Arrive(y, n, true).queued) <==>
            n !in y.queued || y.base <= n ||
            Fresh(y, Folded(n, y.base)) ||
            (y.base == StartOf(Folded(n, y.base)) + TWO16 && y.window.seen[Place(n)])
  {
    hide InRange, StartOf, Place, Arrive, Handle, Blank, Wire, Folded;
    PlaceFacts(n);
    ArriveMeans(y, n, true);
    var z := Arrive(y, n, true);
    if i :| 0 <= i < |y.queued| && y.queued[i] == n {
      if y.base <= n {
        StartMono(y.base, n);
        assert y.window.seen[n - y.base];
        AheadInRange(n, y.base);
      } else {
        var m := Folded(n, y.base);
        StaleQueuedExactly(y, m);
        SameArrival(y, n, m);
        if z.queued == y.queued + [n] {
          assert z.queued[i] == z.queued[|y.queued|];
        }
      }
    }
  }

  lemma SameArrival(y: System, n: nat, m: nat)
    requires Based(y) && n % TWO16 == m % TWO16
    ensures Place(n) == Place(m)
    ensures Arrive(y, n, true).queued == y.queued + [n] <==> Arrive(y, m, true).queued == y.queued + [m]
    ensures Arrive(y, n, true).queued == y.queued || Arrive(y, n, true).queued == y.queued + [n]
  {
    hide InRange, Handle;
    Rounds(n);
    Rounds(m);
    assert y.queued + [n] != y.queued && y.queued + [m] != y.queued;
  }

  /** Without the assumption a group can be queued twice: when the base has moved on by
      33 windows, an old copy looks new. */
  lemma StaleCopyQueuedAgain()
    ensures var y := Arrive(Arrive(Arrive(START, 1, true), 31 * 1024, true), 33 * 1024, true);
            !Fresh(y, 1) && y.queued[0] == 1 && Arrive(y, 1, true).queued == y.queued + [1]
  {
    hide Arrive, Handle, Blank;
    ArriveMeans(START, 1, true);
    var a := Arrive(START, 1, true);
    assert a.queued == [1] && a.base == 0 && Based(a);
    ArriveMeans(a, 31 * 1024, true);
    var b := Arrive(a, 31 * 1024, true);
    assert b.queued == [1, 31 * 1024] && b.base == 31 * 1024 && Based(b);
    ArriveMeans(b, 33 * 1024, true);
    var c := Arrive(b, 33 * 1024, true);
    assert c.queued == [1, 31 * 1024, 33 * 1024] && c.base == 33 * 1024 && Based(c);
    ArriveMeans(c, 1, true);
  }
}
