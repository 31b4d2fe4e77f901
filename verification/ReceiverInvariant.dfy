/**
 What the receiving end of a reliable channel holds, in terms of the packets that were
 sent: dispatched is a prefix of them, and the list holds later ones in order.
 */
module ReceiverInvariant {
  import opened Words
  import opened ReliableWindows
  import opened ReliableReceiver
  import opened Fragments

  /** The channel's packets so far, in the order they were sent, and their fragment length. */
  datatype Sent = Sent(packets: seq<seq<byte>>, fl: Length)

  /** The first sequence number of the i-th packet; one past the last for the next one. */
  function First(t: Sent, i: nat): nat
    requires i <= |t.packets|
  {
    if i == 0 then 1 else First(t, i - 1) + Pieces(|t.packets[i - 1]|, t.fl)
  }

  lemma {:induction false} FirstMono(t: Sent, i: nat, j: nat)
    requires i <= j <= |t.packets|
    ensures First(t, i) + (j - i) <= First(t, j)
    ensures i < j ==> First(t, i) + Pieces(|t.packets[i]|, t.fl) <= First(t, j)
  {
    if i < j {
      FirstMono(t, i, j - 1);
    }
  }

  /** Sequence number `n` belongs to piece `n - First(i)` of packet `i`. */
  ghost predicate Owns(t: Sent, i: nat, n: nat) {
    i < |t.packets| && First(t, i) <= n < First(t, i + 1)
  }

  /** The packet, among the first `k`, that a number belongs to. */
  function OwnerOf(t: Sent, k: nat, n: nat): (i: nat)
    requires k <= |t.packets| && 1 <= n < First(t, k)
    ensures i < k && Owns(t, i, n)
  {
    if First(t, k - 1) <= n then k - 1 else OwnerOf(t, k - 1, n)
  }

  /** The number of the last dispatched command when `m` packets are dispatched. */
  function Base(t: Sent, m: nat): nat
    requires m <= |t.packets|
  {
    FirstMono(t, 0, m);
    First(t, m) - 1
  }

  /** A stored command stands for packet `i`, less than a round ahead. */
  ghost predicate Stored(t: Sent, m: nat, i: nat, e: Incoming) {
    && m <= i < |t.packets|
    && First(t, i) < Base(t, m) + TWO16
    && EntryFor(e, t.packets[i], t.fl, Wire(First(t, i)))
  }

  /** The list holds, in order, the packets named by `idx`. */
  ghost predicate Holds(t: Sent, list: seq<Incoming>, idx: seq<nat>, m: nat) {
    && |idx| == |list| && m <= |t.packets|
    && (forall k :: 0 <= k < |idx| ==> Stored(t, m, idx[k], list[k]))
    && (forall k, l :: 0 <= k < l < |idx| ==> idx[k] < idx[l])
  }

  ghost predicate Receives(t: Sent, r: Receiver, idx: seq<nat>, m: nat) {
    && m <= |t.packets|
    && r.number == Wire(Base(t, m))
    && r.dispatched == t.packets[..m]
    && Holds(t, r.incoming, idx, m)
  }

  /** Sequence number `n`'s data was dispatched or is in the list. */
  ghost predicate Kept(t: Sent, r: Receiver, idx: seq<nat>, m: nat, n: nat) {
    || (m <= |t.packets| && n < First(t, m))
    || (exists k :: 0 <= k < |idx| == |r.incoming| && KeptAt(t, idx[k], r.incoming[k], n))
  }

  ghost predicate KeptAt(t: Sent, i: nat, e: Incoming, n: nat) {
    && Owns(t, i, n)
    && (|t.packets[i]| > t.fl ==> n - First(t, i) < |e.got| && e.got[n - First(t, i)])
  }

  // ----- finding a command's place

  lemma {:induction false} PlaceFound(t: Sent, list: seq<Incoming>, idx: seq<nat>, m: nat, k: nat, i: nat)
    requires Holds(t, list, idx, m) && k <= |list|
    requires m <= i < |t.packets| && First(t, i) < Base(t, m) + TWO16
    requires forall l :: k <= l < |idx| ==> i < idx[l]
    ensures match PlaceOf(list, k, Wire(First(t, i)), Wire(Base(t, m)))
            case Existing(l) => idx[l] == i
            case Before(l) => (forall j :: 0 <= j < l ==> idx[j] < i) && (forall j :: l <= j < |idx| ==> i < idx[j])
  {
    hide Wire, EntryFor, Pieces, First;
    if k > 0 {
      assert Stored(t, m, idx[k - 1], list[k - 1]);
      StoredNumber(t, m, idx[k - 1], list[k - 1]);
      var a, b, base := First(t, i), First(t, idx[k - 1]), Base(t, m);
      FirstMono(t, m, i);
      FirstMono(t, m, idx[k - 1]);
      WireOrder(a, b, base);
      WireOrder(b, a, base);
      if i < idx[k - 1] {
        FirstMono(t, i, idx[k - 1]);
        PlaceFound(t, list, idx, m, k - 1, i);
      } else if idx[k - 1] < i {
        FirstMono(t, idx[k - 1], i);
      }
    }
  }

  lemma StoredNumber(t: Sent, m: nat, i: nat, e: Incoming)
    requires Stored(t, m, i, e)
    ensures e.number == Wire(First(t, i))
  {
  }

  // ----- dispatch

  /** Dispatching moves whole packets, the next ones in order, and drops nothing. */
  lemma {:induction false} DispatchKeeps(t: Sent, r: Receiver, idx: seq<nat>, m: nat) returns (idx': seq<nat>, m': nat)
    requires Receives(t, r, idx, m)
    ensures Receives(t, Dispatch(r), idx', m') && m <= m' && !HeadReady(Dispatch(r))
    ensures forall n: nat :: Kept(t, r, idx, m, n) <==> Kept(t, Dispatch(r), idx', m', n)
    decreases |r.incoming|
  {
    if HeadReady(r) {
      var s := Receiver(LastNumber(r.incoming[0]), r.incoming[1..], r.dispatched + [r.incoming[0].data]);
      DispatchOne(t, r, idx, m);
      idx', m' := DispatchKeeps(t, s, idx[1..], m + 1);
    } else {
      idx', m' := idx, m;
    }
  }

  lemma DispatchOne(t: Sent, r: Receiver, idx: seq<nat>, m: nat)
    requires Receives(t, r, idx, m) && HeadReady(r)
    ensures var s := Receiver(LastNumber(r.incoming[0]), r.incoming[1..], r.dispatched + [r.incoming[0].data]);
            && Receives(t, s, idx[1..], m + 1)
            && forall n: nat :: Kept(t, r, idx, m, n) <==> Kept(t, s, idx[1..], m + 1, n)
  {
    var e := r.incoming[0];
    assert Stored(t, m, idx[0], e);
    HeadIsNext(t, r, idx, m);
    EntryComplete(e, t.packets[m], t.fl, Wire(First(t, m)));
    LastNumberIsBase(t, m, e);
    var s := Receiver(LastNumber(e), r.incoming[1..], r.dispatched + [e.data]);
    forall k | 0 <= k < |idx[1..]| ensures Stored(t, m + 1, idx[1..][k], s.incoming[k]) {
      assert Stored(t, m, idx[k + 1], r.incoming[k + 1]);
      FirstMono(t, m, m + 1);
    }
    forall n: nat ensures Kept(t, r, idx, m, n) <==> Kept(t, s, idx[1..], m + 1, n) {
      KeptDispatched(t, r, s, idx, m, n);
    }
  }

  lemma HeadIsNext(t: Sent, r: Receiver, idx: seq<nat>, m: nat)
    requires Receives(t, r, idx, m) && HeadReady(r)
    ensures idx[0] == m < |t.packets| && r.incoming[0].number == Wire(First(t, m))
  {
    hide Wire, U16, Pieces;
    assert Stored(t, m, idx[0], r.incoming[0]);
    FirstMono(t, m, idx[0]);
    WireAdd(Base(t, m), 1);
    WireInjective(First(t, idx[0]), First(t, m));
  }

  lemma LastNumberIsBase(t: Sent, m: nat, e: Incoming)
    requires m < |t.packets| && EntryFor(e, t.packets[m], t.fl, Wire(First(t, m)))
    ensures LastNumber(e) == Wire(Base(t, m + 1))
  {
    hide EntryFor, LastNumber, Wire, Pieces;
    var k := Pieces(|t.packets[m]|, t.fl);
    WireAdd(First(t, m), k - 1);
    LastOfEntry(e, t.packets[m], t.fl, Wire(First(t, m)));
  }

  lemma LastOfEntry(e: Incoming, packet: seq<byte>, fl: Length, number: u16)
    requires EntryFor(e, packet, fl, number)
    ensures LastNumber(e) == U16(number + Pieces(|packet|, fl) - 1)
  {
    hide PieceCopied;
  }

  lemma WireAdd(n: nat, k: nat)
    ensures U16(Wire(n) + k) == Wire(n + k)
  {
    WireWindow(n);
    var q := n / TWO16;
    assert n + k == q * TWO16 + (Wire(n) + k);
    ModTwo16(q, Wire(n) + k);
  }

  lemma ModTwo16(q: nat, a: nat)
    ensures (q * TWO16 + a) % TWO16 == a % TWO16
  {
  }

  lemma KeptDispatched(t: Sent, r: Receiver, s: Receiver, idx: seq<nat>, m: nat, n: nat)
    requires Receives(t, r, idx, m) && |idx| > 0 && idx[0] == m < |t.packets| && r.incoming[0].remaining <= 0
    requires s.incoming == r.incoming[1..]
    ensures Kept(t, r, idx, m, n) <==> Kept(t, s, idx[1..], m + 1, n)
  {
    hide Wire, Pieces, Clear;
    FirstMono(t, m, m + 1);
    assert Stored(t, m, idx[0], r.incoming[0]);
    if First(t, m) <= n < First(t, m + 1) {
      ClearNone(r.incoming[0].got);
      assert KeptAt(t, idx[0], r.incoming[0], n);
    } else if First(t, m + 1) <= n {
      if k :| 0 <= k < |idx| && KeptAt(t, idx[k], r.incoming[k], n) {
        assert KeptAt(t, idx[1..][k - 1], s.incoming[k - 1], n);
      }
      if k :| 0 <= k < |idx| - 1 && KeptAt(t, idx[1..][k], s.incoming[k], n) {
        assert KeptAt(t, idx[k + 1], r.incoming[k + 1], n);
      }
    }
  }

  // ----- a command arrives

  lemma InsertKeeps(t: Sent, r: Receiver, idx: seq<nat>, m: nat, i: nat, at: nat, e: Incoming)
    requires Receives(t, r, idx, m) && at <= |idx| && Stored(t, m, i, e)
    requires forall j :: 0 <= j < at ==> idx[j] < i
    requires forall j :: at <= j < |idx| ==> i < idx[j]
    ensures var idx' := idx[..at] + [i] + idx[at..];
            var s := r.(incoming := Insert(r.incoming, at, e));
            && Receives(t, s, idx', m)
            && (forall n: nat :: Kept(t, s, idx', m, n) <==> Kept(t, r, idx, m, n) || KeptAt(t, i, e, n))
  {
    hide Wire, EntryFor, Pieces;
    var idx' := idx[..at] + [i] + idx[at..];
    var s := r.(incoming := Insert(r.incoming, at, e));
    forall k | 0 <= k < |idx'| ensures Stored(t, m, idx'[k], s.incoming[k]) {
      if k < at {
        assert Stored(t, m, idx[k], r.incoming[k]);
      } else if k > at {
        assert Stored(t, m, idx[k - 1], r.incoming[k - 1]);
      }
    }
    InsertKept(t, r, idx, m, i, at, e);
  }

  lemma InsertKept(t: Sent, r: Receiver, idx: seq<nat>, m: nat, i: nat, at: nat, e: Incoming)
    requires Receives(t, r, idx, m) && at <= |idx| && i < |t.packets|
    ensures var s := r.(incoming := Insert(r.incoming, at, e));
            var idx' := idx[..at] + [i] + idx[at..];
            forall n: nat :: Kept(t, s, idx', m, n) <==> Kept(t, r, idx, m, n) || KeptAt(t, i, e, n)
  {
    hide Wire, EntryFor, Pieces, First, KeptAt;
    var idx' := idx[..at] + [i] + idx[at..];
    var s := r.(incoming := Insert(r.incoming, at, e));
    forall n: nat ensures Kept(t, s, idx', m, n) <==> Kept(t, r, idx, m, n) || KeptAt(t, i, e, n) {
      if k :| 0 <= k < |idx| && KeptAt(t, idx[k], r.incoming[k], n) {
        var k' := if k < at then k else k + 1;
        assert KeptAt(t, idx'[k'], s.incoming[k'], n);
      }
      if KeptAt(t, i, e, n) {
        assert KeptAt(t, idx'[at], s.incoming[at], n);
      }
      if k :| 0 <= k < |idx'| && k != at && KeptAt(t, idx'[k], s.incoming[k], n) {
        var k' := if k < at then k else k - 1;
        assert KeptAt(t, idx[k'], r.incoming[k'], n);
      }
    }
  }

  lemma ReplaceKeeps(t: Sent, r: Receiver, idx: seq<nat>, m: nat, at: nat, e: Incoming)
    requires Receives(t, r, idx, m) && at < |idx| && Stored(t, m, idx[at], e)
    requires forall n: nat :: KeptAt(t, idx[at], r.incoming[at], n) ==> KeptAt(t, idx[at], e, n)
    ensures var s := r.(incoming := r.incoming[at := e]);
            && Receives(t, s, idx, m)
            && (forall n: nat :: Kept(t, s, idx, m, n) <==> Kept(t, r, idx, m, n) || KeptAt(t, idx[at], e, n))
  {
    hide Wire, EntryFor, Pieces, First;
    var s := r.(incoming := r.incoming[at := e]);
    forall n: nat ensures Kept(t, s, idx, m, n) <==> Kept(t, r, idx, m, n) || KeptAt(t, idx[at], e, n) {
      if k :| 0 <= k < |idx| && KeptAt(t, idx[k], r.incoming[k], n) {
        assert KeptAt(t, idx[k], s.incoming[k], n);
      }
      if KeptAt(t, idx[at], e, n) {
        assert KeptAt(t, idx[at], s.incoming[at], n);
      }
      if k :| 0 <= k < |idx| && k != at && KeptAt(t, idx[k], s.incoming[k], n) {
        assert KeptAt(t, idx[k], r.incoming[k], n);
      }
    }
  }

  /** A packet already dispatched is recognised as old, if it is not too stale. */
  lemma OldNotAccepted(t: Sent, m: nat, i: nat)
    requires i < m <= |t.packets| && Win(First(t, i)) + 9 >= Win(Base(t, m))
    ensures var s, b := Wire(First(t, i)), Wire(Base(t, m));
            (!Accepted(s, b) || (s == b && |t.packets[i]| <= t.fl))
  {
    hide Wire, Accepted, Pieces, Win, First;
    FirstMono(t, i, m);
    LastOwn(t, m, i);
    if First(t, i) < Base(t, m) {
      NotRoundBehind(First(t, i), Base(t, m));
      StaleAcceptedExactly(First(t, i), Base(t, m));
    }
  }

  /** A packet that starts with the last number dispatched is one command. */
  lemma LastOwn(t: Sent, m: nat, i: nat)
    requires i < m <= |t.packets|
    ensures First(t, i) <= Base(t, m)
    ensures First(t, i) == Base(t, m) ==> |t.packets[i]| <= t.fl
  {
    hide Pieces, First;
    FirstNext(t, i);
    FirstMono(t, i + 1, m);
    OnePiece(|t.packets[i]|, t.fl);
  }

  lemma FirstNext(t: Sent, i: nat)
    requires i < |t.packets|
    ensures First(t, i + 1) == First(t, i) + Pieces(|t.packets[i]|, t.fl)
  {
  }

  lemma OnePiece(size: nat, fl: Length)
    ensures Pieces(size, fl) == 1 <==> size <= fl
  {
  }

  lemma NotRoundBehind(n: nat, base: nat)
    requires Win(n) + 9 >= Win(base)
    ensures base < n + TWO16
  {
  }

  /** A packet not dispatched yet, and less than a round ahead, is judged by its true
      distance and is never taken for the last dispatched one. */
  lemma NewJudged(t: Sent, m: nat, i: nat)
    requires m <= i < |t.packets| && First(t, i) < Base(t, m) + TWO16
    ensures var s, b := Wire(First(t, i)), Wire(Base(t, m));
            && s != b
            && (Accepted(s, b) <==> Win(First(t, i)) <= Win(Base(t, m)) + 6)
  {
    FirstMono(t, m, i);
    AheadExact(First(t, i), Base(t, m));
    WinMono(Base(t, m), First(t, i));
    if Wire(First(t, i)) == Wire(Base(t, m)) {
      WireInjective(First(t, i), Base(t, m));
    }
  }

  /** What becomes of the receiver when a copy of number `n`, whose packet starts at
      `first`, is handled: the invariant stays, nothing kept is lost and nothing but `n`
      is added; a dispatched packet or one past the accepted windows changes nothing,
      another is kept unless the handler fails. */
  ghost predicate Took(t: Sent, r: Receiver, idx: seq<nat>, m: nat, n: nat, first: nat,
    s: Receiver, ok: bool, idx': seq<nat>, m': nat)
  {
    && m <= |t.packets|
    && Receives(t, s, idx', m') && m <= m' && !HeadReady(s)
    && (forall k: nat :: Kept(t, r, idx, m, k) ==> Kept(t, s, idx', m', k))
    && (forall k: nat :: Kept(t, s, idx', m', k) && k != n ==> Kept(t, r, idx, m, k))
    && (if Win(first) <= Win(Base(t, m)) + 6 then ok ==> Kept(t, s, idx', m', n)
        else s == r && idx' == idx && m' == m)
    && (n < First(t, m) ==> s == r && idx' == idx && m' == m)
  }

  /** A whole packet arrives. */
  lemma ReliableKeeps(t: Sent, r: Receiver, idx: seq<nat>, m: nat, i: nat, maximumPacketSize: nat, room: bool)
    returns (idx': seq<nat>, m': nat)
    requires Receives(t, r, idx, m) && !HeadReady(r)
    requires i < |t.packets| && |t.packets[i]| <= t.fl
    requires First(t, i) < Base(t, m) + TWO16
    requires i < m ==> Win(First(t, i)) + 9 >= Win(Base(t, m))
    ensures var (s, ok) := HandleReliable(r, Wire(First(t, i)), t.packets[i], maximumPacketSize, room);
            && Took(t, r, idx, m, First(t, i), First(t, i), s, ok, idx', m')
            && (|t.packets[i]| <= maximumPacketSize && room ==> ok)
  {
    hide Wire, Accepted, EntryFor, Pieces, Dispatch, Win, Owns;
    idx', m' := idx, m;
    var number := Wire(First(t, i));
    if i < m {
      OldNotAccepted(t, m, i);
      OldKept(t, r, idx, m, i, 0);
    } else {
      FirstMono(t, m, i);
      NewJudged(t, m, i);
      if Accepted(number, r.number) {
        PlaceFound(t, r.incoming, idx, m, |idx|, i);
        WholeEntry(t, m, i);
        match PlaceOf(r.incoming, |r.incoming|, number, r.number)
        case Existing(k) =>
          assert KeptAt(t, idx[k], r.incoming[k], First(t, i));
        case Before(k) =>
          if room && |t.packets[i]| <= maximumPacketSize {
            var e := Incoming(number, 0, 0, [], t.packets[i]);
            InsertKeeps(t, r, idx, m, i, k, e);
            assert forall n: nat :: KeptAt(t, i, e, n) <==> n == First(t, i);
            idx', m' := DispatchKeeps(t, r.(incoming := Insert(r.incoming, k, e)), idx[..k] + [i] + idx[k..], m);
          }
      }
    }
  }

  lemma WholeEntry(t: Sent, m: nat, i: nat)
    requires m <= i < |t.packets| && |t.packets[i]| <= t.fl && First(t, i) < Base(t, m) + TWO16
    ensures Stored(t, m, i, Incoming(Wire(First(t, i)), 0, 0, [], t.packets[i]))
    ensures forall n: nat :: Owns(t, i, n) <==> n == First(t, i)
  {
  }

  /** A new or repeated piece of a packet arrives at its entry. */
  lemma PieceAdded(t: Sent, r: Receiver, idx: seq<nat>, m: nat, at: nat, j: nat)
    requires Receives(t, r, idx, m) && at < |idx|
    requires |t.packets[idx[at]]| > t.fl && j < Pieces(|t.packets[idx[at]]|, t.fl)
    ensures var f := PieceFragment(t.packets[idx[at]], t.fl, First(t, idx[at]), j);
            var e := r.incoming[at];
            && f.index < |e.got| && f.offset + |f.bytes| <= |e.data| && Matches(e, f)
            && var s := r.(incoming := r.incoming[at := AddFragment(e, f)]);
            && Receives(t, s, idx, m)
            && (forall n: nat :: Kept(t, s, idx, m, n) <==> Kept(t, r, idx, m, n) || n == First(t, idx[at]) + j)
  {
    hide Wire, EntryFor, Pieces, PieceFragment, AddFragment, Matches, Kept;
    var i, e := idx[at], r.incoming[at];
    assert Stored(t, m, i, e);
    var f := PieceFragment(t.packets[i], t.fl, First(t, i), j);
    AddFragmentKeeps(e, t.packets[i], t.fl, Wire(First(t, i)), First(t, i), j);
    var d := AddFragment(e, f);
    FragmentIndex(t.packets[i], t.fl, First(t, i), j);
    assert Stored(t, m, i, d);
    assert forall n: nat :: KeptAt(t, i, d, n) <==> KeptAt(t, i, e, n) || n == First(t, i) + j;
    ReplaceKeeps(t, r, idx, m, at, d);
    KeptThere(t, r, idx, m, at);
  }

  lemma KeptThere(t: Sent, r: Receiver, idx: seq<nat>, m: nat, at: nat)
    requires at < |idx| == |r.incoming|
    ensures forall n: nat :: KeptAt(t, idx[at], r.incoming[at], n) ==> Kept(t, r, idx, m, n)
  {
  }

  lemma FragmentIndex(packet: seq<byte>, fl: Length, first: nat, j: nat)
    requires |packet| > fl && j < Pieces(|packet|, fl)
    ensures var f := PieceFragment(packet, fl, first, j);
            f.index == j && f.start == Wire(first) && f.total == |packet| && f.count == Pieces(|packet|, fl)
            && 0 < |f.bytes| <= fl
  {
    PiecesPartition(|packet|, fl, j);
  }

  /** A packet's first piece to arrive opens its entry. */
  lemma PieceOpens(t: Sent, r: Receiver, idx: seq<nat>, m: nat, i: nat, at: nat, j: nat, blank: seq<byte>)
    requires Receives(t, r, idx, m) && at <= |idx|
    requires m <= i < |t.packets| && First(t, i) < Base(t, m) + TWO16
    requires |t.packets[i]| > t.fl && j < Pieces(|t.packets[i]|, t.fl) && |blank| == |t.packets[i]|
    requires forall k :: 0 <= k < at ==> idx[k] < i
    requires forall k :: at <= k < |idx| ==> i < idx[k]
    ensures var f := PieceFragment(t.packets[i], t.fl, First(t, i), j);
            var o := Opened(f, blank);
            && f.index < |o.got| && f.offset + |f.bytes| <= |o.data|
            && var s := r.(incoming := Insert(r.incoming, at, AddFragment(o, f)));
            var idx' := idx[..at] + [i] + idx[at..];
            && Receives(t, s, idx', m)
            && (forall n: nat :: Kept(t, s, idx', m, n) <==> Kept(t, r, idx, m, n) || n == First(t, i) + j)
  {
    hide Wire, EntryFor, Pieces, PieceFragment, AddFragment, Matches, Kept;
    var f := PieceFragment(t.packets[i], t.fl, First(t, i), j);
    OpenedKeeps(t.packets[i], t.fl, First(t, i), j, blank);
    AddFragmentKeeps(Opened(f, blank), t.packets[i], t.fl, Wire(First(t, i)), First(t, i), j);
    FragmentIndex(t.packets[i], t.fl, First(t, i), j);
    var d := AddFragment(Opened(f, blank), f);
    assert Stored(t, m, i, d);
    assert forall n: nat :: KeptAt(t, i, d, n) <==> n == First(t, i) + j;
    InsertKeeps(t, r, idx, m, i, at, d);
  }

  /** A genuine fragment passes every check unless its packet is too big. */
  lemma FragmentSound(packet: seq<byte>, fl: Length, first: nat, j: nat, maximumPacketSize: nat)
    requires |packet| > fl && j < Pieces(|packet|, fl) <= MAXIMUM_FRAGMENT_COUNT
    ensures Sound(PieceFragment(packet, fl, first, j), maximumPacketSize) <==> |packet| <= maximumPacketSize
  {
    PiecesPartition(|packet|, fl, j);
  }

  /** A fragment arrives, in whatever order and however often. */
  lemma FragmentKeeps(t: Sent, r: Receiver, idx: seq<nat>, m: nat, i: nat, j: nat, maximumPacketSize: nat,
      room: bool, blank: seq<byte>)
    returns (idx': seq<nat>, m': nat)
    requires Receives(t, r, idx, m) && !HeadReady(r)
    requires i < |t.packets| && |t.packets[i]| > t.fl && j < Pieces(|t.packets[i]|, t.fl) <= MAXIMUM_FRAGMENT_COUNT
    requires |blank| == |t.packets[i]|
    requires First(t, i) < Base(t, m) + TWO16
    requires i < m ==> Win(First(t, i)) + 9 >= Win(Base(t, m))
    ensures var f := PieceFragment(t.packets[i], t.fl, First(t, i), j);
            && f.total == |blank|
            && var (s, ok) := HandleFragment(r, f, maximumPacketSize, room, blank);
            && Took(t, r, idx, m, First(t, i) + j, First(t, i), s, ok, idx', m')
            && (|t.packets[i]| <= maximumPacketSize && room ==> ok)
  {
    hide Wire, Accepted, EntryFor, Pieces, PieceFragment, AddFragment, Matches, Opened, Dispatch, Sound, Kept,
      Receives, Win;
    idx', m' := idx, m;
    var f := PieceFragment(t.packets[i], t.fl, First(t, i), j);
    FragmentIndex(t.packets[i], t.fl, First(t, i), j);
    FragmentSound(t.packets[i], t.fl, First(t, i), j, maximumPacketSize);
    ReceivesFacts(t, r, idx, m);
    if i < m {
      OldNotAccepted(t, m, i);
      OldKept(t, r, idx, m, i, j);
    } else {
      FirstMono(t, m, i);
      NewJudged(t, m, i);
      if 0 < |f.bytes| <= maximumPacketSize && Accepted(f.start, r.number) && Sound(f, maximumPacketSize) {
        PlaceFound(t, r.incoming, idx, m, |idx|, i);
        match PlaceOf(r.incoming, |r.incoming|, f.start, r.number)
        case Existing(k) =>
          PieceAdded(t, r, idx, m, k, j);
          idx', m' := DispatchKeeps(t, r.(incoming := r.incoming[k := AddFragment(r.incoming[k], f)]), idx, m);
        case Before(k) =>
          if room {
            PieceOpens(t, r, idx, m, i, k, j, blank);
            idx', m' := DispatchKeeps(t, r.(incoming := Insert(r.incoming, k, AddFragment(Opened(f, blank), f))),
                                      idx[..k] + [i] + idx[k..], m);
          }
      }
    }
  }

  lemma ReceivesFacts(t: Sent, r: Receiver, idx: seq<nat>, m: nat)
    requires Receives(t, r, idx, m)
    ensures m <= |t.packets| && r.number == Wire(Base(t, m)) && Holds(t, r.incoming, idx, m)
  {
  }

  lemma OldKept(t: Sent, r: Receiver, idx: seq<nat>, m: nat, i: nat, j: nat)
    requires i < m <= |t.packets| && j < Pieces(|t.packets[i]|, t.fl)
    ensures Kept(t, r, idx, m, First(t, i) + j) && Win(First(t, i)) <= Win(Base(t, m))
  {
    FirstMono(t, i, m);
    WinMono(First(t, i), Base(t, m));
  }
}
