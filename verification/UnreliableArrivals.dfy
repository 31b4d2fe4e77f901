/**
 What an arrival does on an unreliable channel: a packet that is to come is taken, each of
 its fragments is marked when it comes, and with the last one the packet is dispatched as
 soon as its turn is there.
 */
module UnreliableArrivals {
  import opened ReliableWindows
  import opened UnreliableQueue
  import opened UnreliableOrder
  import opened UnreliableDelivery

  /** The command's packet is the entry's. */
  predicate SamePacket(a: Entry, b: Entry) {
    a.sequenced && b.sequenced && a.n == b.n && a.unreliable == b.unreliable
  }

  /** The packet is still to come: it follows the last one dispatched, by less than seven windows. */
  predicate ToCome(q: Queue, e: Entry, r: nat) {
    (r < e.n || (r == e.n && q.unreliable < e.unreliable)) && e.n / 4096 < r / 4096 + 7
  }

  /** The entry is in the list or was dispatched; dispatched exactly if it is complete and
      follows the reliable number reached. */
  ghost predicate Stands(z: Queue, x: Entry, r: nat) {
    if x.n == r && (forall j :: 0 <= j < |x.got| ==> x.got[j]) then x in z.dispatched else x in z.list
  }

  lemma ToComeMeans(q: Queue, e: Entry, r: nat)
    requires Timely(e, r)
    ensures ToCome(q, e, r) <==> Passable(e, r, q.unreliable) && r <= e.n
  {
    hide Labelled;
  }

  /** The search finds the packet's entry if it is in the list, and only then. */
  lemma FoundExactly(q: Queue, r: nat, e: Entry, k: nat)
    requires Good(q, r) && Timely(e, r) && k < |q.list| && SamePacket(q.list[k], e)
    ensures ToCome(q, e, r) && PlaceOf(q.list, |q.list|, e.number, e.unreliable, q.number) == Existing(k)
  {
    hide Wire, Win, Labelled, PlaceOf;
    GoodHeld(q, r);
    assert Waiting(q.list[k], r, q.unreliable);
    ToComeMeans(q, e, r);
    PassablePlaceable(e, r, q.unreliable);
    GoodNumber(q, r);
    PlaceRight(q.list, |q.list|, e, r);
    RightFinds(q.list, PlaceOf(q.list, |q.list|, e.number, e.unreliable, q.number), e, k);
  }

  lemma RightFinds(list: seq<Entry>, p: Place, e: Entry, k: nat)
    requires match p case Before(i) => i <= |list| case Existing(i) => i < |list|
    requires Right(list, p, e) && Sorted(list) && k < |list| && SamePacket(list[k], e)
    ensures p == Existing(k)
  {
    assert list[k].sequenced;
    if p.Existing? {
      SortedDiffer(list, p.i, k);
    }
  }

  lemma SortedDiffer(list: seq<Entry>, i: nat, k: nat)
    requires Sorted(list) && i < |list| && k < |list| && SamePacket(list[i], list[k])
    ensures i == k
  {
  }

  lemma NotFound(q: Queue, r: nat, e: Entry)
    requires Good(q, r) && Timely(e, r) && ToCome(q, e, r)
    requires forall k :: 0 <= k < |q.list| ==> !SamePacket(q.list[k], e)
    ensures PlaceOf(q.list, |q.list|, e.number, e.unreliable, q.number).Before?
  {
    hide Wire, Win, Labelled, PlaceOf, Sorted;
    GoodHeld(q, r);
    ToComeMeans(q, e, r);
    PassablePlaceable(e, r, q.unreliable);
    GoodNumber(q, r);
    PlaceRight(q.list, |q.list|, e, r);
  }

  /** After a dispatch an entry that was not overtaken stands where it should, but for one
      that lacks fragments in its turn. */
  lemma DispatchStands(p: Queue, r: nat, keep: int, k: nat)
    requires Prepared(p, r, keep) && k < |p.list| && p.list[k].sequenced && r <= p.list[k].n
    requires k == keep || !Incomplete(p.list[k], r)
    ensures Stands(Dispatch(p, keep), p.list[k], r)
  {
    hide Wire, Win, Dispatch, Less, Sorted, Labelled, Complete;
    DispatchKeeps(p, r, keep);
    var x, d := p.list[k], Dispatch(p, keep);
    HasCount(p, r, k);
    CompleteAll(x);
    if x.n == r && Complete(x) {
      assert Ripe(x, r);
    } else {
      NotYetDispatched(p, r, keep, k);
      if k == keep && Incomplete(x, r) {
        OpenedStays(p, r, keep);
      }
    }
  }

  lemma HasCount(p: Queue, r: nat, k: nat)
    requires Prepared(p, r, NONE) || exists keep :: Prepared(p, r, keep)
    requires k < |p.list|
    ensures Counted(p.list[k]) && (Complete(p.list[k]) <==> p.list[k].remaining <= 0)
  {
    hide Wire, Win, Less, Sorted, Counted, Complete;
    assert Passable(p.list[k], r, p.unreliable);
    CompleteMeans(p.list[k]);
  }

  lemma CompleteAll(x: Entry)
    ensures Counted(x) ==> (Complete(x) <==> forall j :: 0 <= j < |x.got| ==> x.got[j])
  {
  }

  /** What is dispatched is complete and not of a later turn. */
  lemma NotYetDispatched(p: Queue, r: nat, keep: int, k: nat)
    requires Prepared(p, r, keep) && k < |p.list| && p.list[k].sequenced && !(p.list[k].n == r && Complete(p.list[k]))
    requires r <= p.list[k].n
    ensures p.list[k] !in Dispatch(p, keep).dispatched
  {
    hide Wire, Win, Dispatch, Less, Sorted, Labelled, Complete;
    DispatchKeeps(p, r, keep);
  }

  // ----- whole packets

  /** A whole packet that is to come, is not there yet and may be held is taken: dispatched if
      it is its turn, and held otherwise. Any other changes nothing. */
  lemma WholeArrives(q: Queue, r: nat, e: Entry, room: bool)
    requires Good(q, r) && Timely(e, r) && e.fragmentCount == 0
    ensures var z := HandleUnreliable(q, e, room);
            if ToCome(q, e, r) && room && forall k :: 0 <= k < |q.list| ==> !SamePacket(q.list[k], e) then
              if e.n == r then e in z.dispatched else e in z.list
            else z == q
  {
    hide Wire, Win, PlaceOf, Dispatch, Less, Sorted, Accepted, Wanted;
    GoodNumber(q, r);
    WantedMeans(q, r, e);
    ToComeMeans(q, e, r);
    if ToCome(q, e, r) {
      if k :| 0 <= k < |q.list| && SamePacket(q.list[k], e) {
        FoundExactly(q, r, e, k);
      } else {
        NotFound(q, r, e);
        if room {
          Inserted(q, r, e);
        }
      }
    }
  }

  /** The entry just inserted stands where it should. */
  lemma Inserted(q: Queue, r: nat, e: Entry)
    requires Good(q, r) && Timely(e, r) && ToCome(q, e, r)
    requires PlaceOf(q.list, |q.list|, e.number, e.unreliable, q.number).Before?
    ensures var i := PlaceOf(q.list, |q.list|, e.number, e.unreliable, q.number).i;
            var p := q.(list := Insert(q.list, i, e));
            && Prepared(p, r, i) && i < |p.list| && p.list[i] == e
            && Stands(Dispatch(p, i), e, r)
  {
    hide Wire, Win, PlaceOf, Dispatch, Less, Sorted, Labelled, Stands;
    GoodHeld(q, r);
    ToComeMeans(q, e, r);
    PassablePlaceable(e, r, q.unreliable);
    GoodNumber(q, r);
    PlaceRight(q.list, |q.list|, e, r);
    var i := PlaceOf(q.list, |q.list|, e.number, e.unreliable, q.number).i;
    InsertPrepared(q, r, i, e);
    DispatchStands(q.(list := Insert(q.list, i, e)), r, i, i);
  }

  // ----- fragments

  /** One flag more, and no other changed. */
  predicate OneMore(before: seq<bool>, after: seq<bool>, index: nat) {
    && |after| == |before| && index < |before| && after[index]
    && forall j :: 0 <= j < |before| && j != index ==> after[j] == before[j]
  }

  /** The packet has one fragment more than its entry had, and stands where it should. */
  ghost predicate Gains(z: Queue, e: Entry, index: nat, r: nat) {
    exists x :: Stands(z, x, r) && x == e.(got := x.got, remaining := x.remaining) && OneMore(e.got, x.got, index)
  }

  lemma MarkStands(q: Queue, r: nat, k: nat, index: nat)
    requires Good(q, r) && k < |q.list| && index < |q.list[k].got|
    ensures Gains(MarkAt(q, k, index), q.list[k], index, r)
  {
    hide Wire, Win, Dispatch, Less, Sorted, Labelled, Complete;
    var e, x := q.list[k], Mark(q.list[k], index);
    var p := q.(list := q.list[k := x]);
    ListCounted(q, r, k);
    CompleteAll(e);
    MarkedReady(q, r, k, index);
    HasCount(p, r, k);
    CompleteAll(x);
    if e.got[index] {
      assert p == q;
    } else if x.remaining <= 0 {
      DispatchStands(p, r, NONE, k);
    }
    assert Stands(MarkAt(q, k, index), x, r);
  }

  /** A fragment of a packet that is in the list: afterwards the packet has that fragment and
      the others as before, and is dispatched if none is missing and its turn is there;
      otherwise it stays. A fragment that counts the packet's fragments otherwise changes
      nothing. */
  lemma FragmentArrives(q: Queue, r: nat, e: Entry, index: nat, room: bool, k: nat)
    requires Good(q, r) && Timely(e, r) && Opened(e) && index < e.fragmentCount
    requires k < |q.list| && SamePacket(q.list[k], e)
    ensures var z := HandleFragment(q, e, index, room);
            if q.list[k].fragmentCount != e.fragmentCount then z == q else Gains(z, q.list[k], index, r)
  {
    hide Wire, Win, PlaceOf, Dispatch, Less, Sorted, Accepted, Wanted, Labelled, Complete, MarkAt, Gains, KeptAt;
    FoundExactly(q, r, e, k);
    GoodNumber(q, r);
    WantedMeans(q, r, e);
    ToComeMeans(q, e, r);
    ListCounted(q, r, k);
    if q.list[k].fragmentCount == e.fragmentCount {
      MarkStands(q, r, k, index);
    }
  }

  lemma ListCounted(q: Queue, r: nat, k: nat)
    requires Good(q, r) && k < |q.list|
    ensures Counted(q.list[k]) && q.list[k].sequenced && r <= q.list[k].n
    ensures !(q.list[k].n == r && Complete(q.list[k]))
  {
    hide Wire, Win, Less, Sorted, Complete, Counted;
    assert Waiting(q.list[k], r, q.unreliable);
    CompleteMeans(q.list[k]);
  }

  /** A fragment of a packet that is not in the list: if the packet is to come and may be held
      it has that fragment afterwards and no other. Otherwise nothing changes. */
  lemma FragmentOpens(q: Queue, r: nat, e: Entry, index: nat, room: bool)
    requires Good(q, r) && Timely(e, r) && Opened(e) && index < e.fragmentCount
    requires forall k :: 0 <= k < |q.list| ==> !SamePacket(q.list[k], e)
    ensures var z := HandleFragment(q, e, index, room);
            if ToCome(q, e, r) && room then Gains(z, e, index, r) && !e.got[index] else z == q
  {
    hide Wire, Win, PlaceOf, Dispatch, Less, Sorted, Accepted, Wanted, Labelled, Complete, MarkAt, Gains, KeptAt;
    GoodNumber(q, r);
    WantedMeans(q, r, e);
    ToComeMeans(q, e, r);
    if ToCome(q, e, r) {
      NotFound(q, r, e);
      if room {
        var i := PlaceOf(q.list, |q.list|, e.number, e.unreliable, q.number).i;
        var p := q.(list := Insert(q.list, i, e));
        Inserted(q, r, e);
        OpenedStays(p, r, i);
        DispatchKeeps(p, r, i);
        MarkStands(Dispatch(p, i), r, KeptAt(p, i), index);
      }
    }
  }

  // ----- the reliable half moves on

  /** When reliable number `t` is reached, the complete packets that follow it are dispatched,
      those before it go, and those after it stay. */
  lemma MovesOn(q: Queue, r: nat, t: nat, k: nat)
    requires Good(q, r) && r < t && Win(t) <= Win(r) + 9 && k < |q.list|
    ensures var z, x := Advance(q, Wire(t)), q.list[k];
            && (x.n < t ==> x !in z.list)
            && (t <= x.n && !Incomplete(x, t) ==> Stands(z, x, t))
  {
    hide Wire, Win, Dispatch, Less, Sorted, Labelled, Complete;
    var p := q.(number := Wire(t), unreliable := 0);
    ListCounted(q, r, k);
    AdvancePrepared(q, r, t);
    DispatchKeeps(p, t, NONE);
    if t <= q.list[k].n && !Incomplete(q.list[k], t) {
      DispatchStands(p, t, NONE, k);
    }
  }
}
