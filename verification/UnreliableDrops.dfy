/**
 Which incomplete packets a pass keeps: of those after the last one it dispatches the last
 two, and the one just queued. The others before them are dropped, whether or not anything
 overtook them.
 */
module UnreliableDrops {
  import opened Words
  import opened ReliableWindows
  import opened UnreliableQueue
  import opened UnreliableOrder
  import opened UnreliableDelivery

  /** A packet after `k`, and before `i`, is dispatched by the pass. */
  ghost predicate RipeAfter(list: seq<Entry>, r: nat, k: nat, i: nat)
    requires i <= |list|
  {
    exists j :: k < j < i && list[j].sequenced && Ripe(list[j], r)
  }

  /** At least two packets after `k`, and before `i`, are incomplete. */
  ghost predicate TwoAfter(list: seq<Entry>, r: nat, k: nat, i: nat)
    requires i <= |list|
  {
    exists a, b :: k < a < b < i && Incomplete(list[a], r) && Incomplete(list[b], r)
  }

  ghost predicate Overtaken(list: seq<Entry>, r: nat, k: nat, i: nat)
    requires i <= |list|
  {
    RipeAfter(list, r, k, i) || TwoAfter(list, r, k, i)
  }

  /** Where a pass has come to, as far as dropping goes: it keeps at most the two entries
      before `i`, and each incomplete one before those is overtaken or has two after it. */
  ghost predicate Tail(list: seq<Entry>, r: nat, i: nat, s: Scan)
    requires i <= |list|
  {
    && s.drop <= s.start <= i && (s.start == i ==> i <= s.drop + 2)
    && (forall k :: 0 <= k < s.drop && Incomplete(list[k], r) ==> Overtaken(list, r, k, i))
    && (forall k :: s.start <= k < i ==> list[k].sequenced ==> Ripe(list[k], r))
    && Stuck(list, r, s.drop, s.start)
    && (forall k :: 1 <= k < |list| ==> list[k].sequenced)
  }

  lemma OvertakenStays(list: seq<Entry>, r: nat, k: nat, i: nat)
    requires i < |list| && Overtaken(list, r, k, i)
    ensures Overtaken(list, r, k, i + 1)
  {
    if RipeAfter(list, r, k, i) {
      var j :| k < j < i && list[j].sequenced && Ripe(list[j], r);
      assert RipeAfter(list, r, k, i + 1);
    } else {
      var a, b :| k < a < b < i && Incomplete(list[a], r) && Incomplete(list[b], r);
      assert TwoAfter(list, r, k, i + 1);
    }
  }

  /** An entry the pass looks at changes nothing for those dropped before it. */
  lemma TailStays(list: seq<Entry>, r: nat, i: nat, s: Scan)
    requires i < |list| && Tail(list, r, i, s)
    ensures forall k :: 0 <= k < s.drop && Incomplete(list[k], r) ==> Overtaken(list, r, k, i + 1)
  {
    hide Overtaken;
    forall k | 0 <= k < s.drop && Incomplete(list[k], r) ensures Overtaken(list, r, k, i + 1) {
      OvertakenStays(list, r, k, i);
    }
  }

  /** Where a run of due packets ends, everything incomplete before it is overtaken. */
  lemma TailMoved(list: seq<Entry>, r: nat, i: nat, s: Scan)
    requires i <= |list| && Tail(list, r, i, s) && s.start < i
    ensures forall k :: 0 <= k < i && Incomplete(list[k], r) ==> Overtaken(list, r, k, i)
  {
    hide TwoAfter;
    forall k | 0 <= k < i && Incomplete(list[k], r) ensures Overtaken(list, r, k, i) {
      if s.start <= k {
        assert false;
      }
      assert list[s.start].sequenced && Ripe(list[s.start], r);
      assert RipeAfter(list, r, k, i);
    }
  }

  lemma TailIncomplete(list: seq<Entry>, r: nat, i: nat, s: Scan)
    requires i < |list| && Tail(list, r, i, s) && Incomplete(list[i], r)
    ensures s.start != i ==> Tail(list, r, i + 1, s.(moved := s.moved + list[s.start..i], drop := i, start := i + 1))
    ensures s.start == i && s.drop != i ==> Tail(list, r, i + 1, s.(drop := i - 1, start := i + 1))
    ensures s.start == i && s.drop == i ==> Tail(list, r, i + 1, s.(start := i + 1))
  {
    hide Overtaken;
    TailStays(list, r, i, s);
    if s.start != i {
      TailMoved(list, r, i, s);
      forall k | 0 <= k < i && Incomplete(list[k], r) ensures Overtaken(list, r, k, i + 1) {
        OvertakenStays(list, r, k, i);
      }
    } else if s.drop != i {
      forall k | 0 <= k < i - 1 && Incomplete(list[k], r) ensures Overtaken(list, r, k, i + 1) {
        TwoLater(list, r, k, i);
      }
    }
  }

  lemma TwoLater(list: seq<Entry>, r: nat, k: nat, i: nat)
    requires k + 1 < i < |list| && Incomplete(list[i - 1], r) && Incomplete(list[i], r)
    ensures Overtaken(list, r, k, i + 1)
  {
    assert TwoAfter(list, r, k, i + 1);
  }

  /** Entries overtaken by the reliable part come before every incomplete one. */
  lemma TailStale(list: seq<Entry>, r: nat, i: nat, s: Scan)
    requires i < |list| && Tail(list, r, i, s) && Sorted(list) && list[i].sequenced && list[i].n < r
    ensures Tail(list, r, i + 1, s.(moved := s.moved + list[s.start..i], drop := i + 1, start := i + 1))
  {
    hide Overtaken;
    forall k | 0 <= k <= i ensures !Incomplete(list[k], r) {
      if k < i && list[k].sequenced {
        assert Less(list[k], list[i]);
      }
    }
  }

  lemma TailPlain(list: seq<Entry>, r: nat, i: nat, s: Scan)
    requires i < |list| && Tail(list, r, i, s) && (list[i].sequenced ==> Ripe(list[i], r))
    ensures forall u: u16 :: Tail(list, r, i + 1, s.(unreliable := u))
    ensures Tail(list, r, i + 1, s)
  {
    hide Overtaken;
    TailStays(list, r, i, s);
  }

  /** At the end of the pass: an incomplete entry stays exactly when it is not overtaken. */
  lemma TailFinished(list: seq<Entry>, r: nat, i: nat, s: Scan)
    requires i <= |list| && Tail(list, r, i, s)
    requires i == |list| || (list[i].sequenced && list[i].n > r)
    requires Sorted(list)
    ensures forall k :: 0 <= k < |list| && Incomplete(list[k], r) ==>
              (Finish(list, i, s).drop <= k <==> !Overtaken(list, r, k, |list|))
  {
    hide Overtaken;
    var f := Finish(list, i, s);
    FutureAfter(list, r, i);
    forall k | 0 <= k < |list| && Incomplete(list[k], r)
      ensures f.drop <= k <==> !Overtaken(list, r, k, |list|)
    {
      assert k < i;
      SameOvertaken(list, r, k, i);
      if s.start != i {
        TailMoved(list, r, i, s);
      } else if s.drop <= k {
        LastTwo(list, r, k, i, s);
      }
    }
  }

  lemma FutureAfter(list: seq<Entry>, r: nat, i: nat)
    requires Sorted(list) && i <= |list| && (i == |list| || (list[i].sequenced && list[i].n > r))
    ensures forall k :: i <= k < |list| && list[k].sequenced ==> list[k].n > r
  {
  }

  lemma SameOvertaken(list: seq<Entry>, r: nat, k: nat, i: nat)
    requires k < i <= |list| && forall j :: i <= j < |list| && list[j].sequenced ==> list[j].n > r
    ensures Overtaken(list, r, k, i) <==> Overtaken(list, r, k, |list|)
  {
    if RipeAfter(list, r, k, |list|) {
      var j :| k < j < |list| && list[j].sequenced && Ripe(list[j], r);
      assert j < i;
    }
    if TwoAfter(list, r, k, |list|) {
      var a, b :| k < a < b < |list| && Incomplete(list[a], r) && Incomplete(list[b], r);
      assert b < i;
    }
    if RipeAfter(list, r, k, i) {
      var j :| k < j < i && list[j].sequenced && Ripe(list[j], r);
      assert RipeAfter(list, r, k, |list|);
    }
    if TwoAfter(list, r, k, i) {
      var a, b :| k < a < b < i && Incomplete(list[a], r) && Incomplete(list[b], r);
      assert TwoAfter(list, r, k, |list|);
    }
  }

  lemma LastTwo(list: seq<Entry>, r: nat, k: nat, i: nat, s: Scan)
    requires i <= |list| && Tail(list, r, i, s) && s.start == i && s.drop <= k < i
    ensures !Overtaken(list, r, k, i)
  {
    assert i <= k + 2;
  }

  lemma TailBounds(list: seq<Entry>, r: nat, i: nat, s: Scan)
    requires i <= |list| && Tail(list, r, i, s)
    ensures s.drop <= s.start <= i && Stuck(list, r, s.drop, s.start)
  {
  }

  lemma {:induction false} PassDrops(list: seq<Entry>, r: nat, i: nat, s: Scan, u: nat)
    requires Ready(list, r, u) && i <= |list| && Tail(list, r, i, s)
    ensures s.start <= i && s.drop <= i
    ensures forall k :: 0 <= k < |list| && Incomplete(list[k], r) ==>
              (Pass(list, Wire(r), i, s).drop <= k <==> !Overtaken(list, r, k, |list|))
    decreases |list| - i
  {
    hide Pass, Overtaken, Tail, Labelled, Win, Wire, Accepted, Sorted, Finish, Later;
    TailBounds(list, r, i, s);
    ReadySorted(list, r, u);
    PassMeans(list, Wire(r), i, s);
    if i == |list| {
      TailFinished(list, r, i, s);
    } else if !list[i].sequenced {
      TailPlain(list, r, i, s);
      PassDrops(list, r, i + 1, s, u);
    } else {
      Judged(list[i], r, u);
      if list[i].n > r {
        TailFinished(list, r, i, s);
      } else if list[i].n < r {
        TailStale(list, r, i, s);
        PassDrops(list, r, i + 1, s.(moved := s.moved + list[s.start..i], drop := i + 1, start := i + 1), u);
      } else if list[i].remaining <= 0 {
        TailPlain(list, r, i, s);
        PassDrops(list, r, i + 1, s.(unreliable := list[i].unreliable), u);
      } else {
        TailIncomplete(list, r, i, s);
        if s.start != i {
          PassDrops(list, r, i + 1, s.(moved := s.moved + list[s.start..i], drop := i, start := i + 1), u);
        } else if s.drop != i {
          PassDrops(list, r, i + 1, s.(drop := i - 1, start := i + 1), u);
        } else {
          PassDrops(list, r, i + 1, s.(start := i + 1), u);
        }
      }
    }
  }

  /** When an incomplete packet stays: it is the one just queued, or no packet after it is
      dispatched and no two after it are incomplete. */
  lemma StaysExactly(q: Queue, r: nat, keep: int, k: nat)
    requires Prepared(q, r, keep) && k < |q.list| && Incomplete(q.list[k], r)
    ensures q.list[k] in Dispatch(q, keep).list <==>
            k == keep || !(RipeAfter(q.list, r, k, |q.list|) || TwoAfter(q.list, r, k, |q.list|))
  {
    hide Pass, Win, Wire, Labelled, Later, Delivered, Moved, RipeAfter, TwoAfter;
    var list, s0 := q.list, Scan(0, 0, q.unreliable, []);
    NothingMoved(list, r);
    LaterHere(list, r, q.unreliable);
    var end := PassKeeps(list, r, 0, s0, q.unreliable);
    PassDrops(list, r, 0, s0, q.unreliable);
    var s := Pass(list, q.number, 0, s0);
    MovedRipe(list, r, end, s.moved);
    forall j | 0 <= j < |list| && list[j] == list[k] ensures j == k {
      assert !Less(list[k], list[k]);
    }
    if s.drop <= k {
      assert list[s.drop..][k - s.drop] == list[k];
    }
  }

  // ----- a run that gets there

  /** The entry of a packet in two fragments, and the same with the first one there. */
  function Two(unreliable: u16): Entry {
    Entry(true, 0, unreliable, 2, 2, [false, false], 0, 0)
  }

  function Half(unreliable: u16): Entry {
    Entry(true, 0, unreliable, 2, 1, [true, false], 0, 0)
  }

  /** On a new connection the first fragments of three packets arrive, one of each, in
      order; with the third the first packet is dropped. */
  lemma ThirdDropsFirst() returns (run: seq<System>)
    ensures Run(run) && |run| == 4
    ensures run[2].queue.list == [Half(1), Half(2)] && run[3].queue.list == [Half(2), Half(3)]
    ensures run[3].queue.dispatched == [] && run[3].reached == 0
  {
    hide HandleFragment, Timely, Opened;
    run := [START];
    run := run + [System(Queue(0, 0, [Half(1)], []), 0)];
    run := run + [System(Queue(0, 0, [Half(1), Half(2)], []), 0)];
    run := run + [System(Queue(0, 0, [Half(2), Half(3)], []), 0)];
    Arrives([], 1);
    assert [Half(1)] == [] + [Half(1)];
    Arrives([Half(1)], 2);
    assert [Half(1), Half(2)] == [Half(1)] + [Half(2)];
    Arrives([Half(1), Half(2)], 3);
    assert [Half(2), Half(3)] == [Half(1), Half(2)][1..] + [Half(3)];
    forall k | 0 <= k < 3 ensures Step(run[k], run[k + 1]) {
      TwoTimely(k + 1);
      assert Next(run[k], Fragment(Two(k + 1), 0, true)) == run[k + 1];
    }
  }

  lemma TwoTimely(u: u16)
    requires u >= 1
    ensures Timely(Two(u), 0) && Opened(Two(u))
  {
    assert Two(u).got[..1] == [false] && [false][..0] == [];
    assert Fragments.Clear([false]) == 1;
    assert Fragments.Clear(Two(u).got) == 2;
  }

  lemma Arrives(list: seq<Entry>, u: u16)
    requires 1 <= u <= 3 && |list| == u - 1 && forall k :: 0 <= k < |list| ==> list[k] == Half(k + 1)
    ensures HandleFragment(Queue(0, 0, list, []), Two(u), 0, true)
         == Queue(0, 0, (if u == 3 then list[1..] else list) + [Half(u)], [])
  {
    hide Pass, PlaceOf, Dispatch, KeptAt, MarkAt, Accepted;
    var q, e := Queue(0, 0, list, []), Two(u);
    assert Accepted(0, 0) by { ZeroAccepted(); }
    LastPlace(list, u);
    var p := q.(list := Insert(list, |list|, e));
    assert p.list == list + [e];
    PassOver(p.list, u);
    Dispatches(p, u);
    var d := Dispatch(p, |list|);
    Marks(d, u);
  }

  lemma ZeroAccepted()
    ensures Accepted(0, 0)
  {
  }

  lemma LastPlace(list: seq<Entry>, u: u16)
    requires 1 <= u <= 3 && |list| == u - 1 && forall k :: 0 <= k < |list| ==> list[k] == Half(k + 1)
    ensures PlaceOf(list, |list|, 0, u, 0) == Before(|list|)
  {
  }

  lemma PassOver(list: seq<Entry>, u: u16)
    requires 1 <= u <= 3 && |list| == u
    requires forall k :: 0 <= k < u ==> list[k].sequenced && list[k].number == 0 && list[k].remaining > 0
    ensures Pass(list, 0, 0, Scan(0, 0, 0, [])) == Scan(u, if u == 3 then 1 else 0, 0, [])
  {
    hide Pass, Accepted;
    PassMeans(list, 0, 0, Scan(0, 0, 0, []));
    PassMeans(list, 0, 1, Scan(1, 0, 0, []));
    if u >= 2 {
      PassMeans(list, 0, 2, Scan(2, 0, 0, []));
    }
    if u == 3 {
      PassMeans(list, 0, 3, Scan(3, 1, 0, []));
    }
  }

  lemma Dispatches(p: Queue, u: u16)
    requires 1 <= u <= 3 && |p.list| == u && p.unreliable == p.number == 0
    requires Pass(p.list, 0, 0, Scan(0, 0, 0, [])) == Scan(u, if u == 3 then 1 else 0, 0, [])
    ensures Dispatch(p, u - 1) == p.(list := if u == 3 then p.list[1..] else p.list)
    ensures KeptAt(p, u - 1) == if u == 3 then 1 else u - 1
  {
    hide Pass;
    assert p.dispatched + [] == p.dispatched && [] + p.list[0..] == p.list && [] + p.list[1..] == p.list[1..];
  }

  lemma Marks(d: Queue, u: u16)
    requires |d.list| > 0 && d.list[|d.list| - 1] == Two(u)
    ensures MarkAt(d, |d.list| - 1, 0) == d.(list := d.list[..|d.list| - 1] + [Half(u)])
  {
    hide Dispatch;
    assert [false, false][0 := true] == [true, false];
    assert d.list[|d.list| - 1 := Half(u)] == d.list[..|d.list| - 1] + [Half(u)];
  }
}
