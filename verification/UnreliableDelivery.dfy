/**
 Unreliable delivery over whole runs: arrivals in any order, lost and repeated, while the
 reliable part of the channel moves on.
 */
module UnreliableDelivery {
  import opened Words
  import opened ReliableWindows
  import opened UnreliableQueue
  import opened UnreliableOrder

  // ----- dispatching

  /** Before a dispatch: nothing is ripe but perhaps the entry just queued, which is not
      an overtaken one. */
  ghost predicate Prepared(q: Queue, r: nat, keep: int) {
    && q.number == Wire(r) && keep < |q.list|
    && Ready(q.list, r, q.unreliable) && Delivered(q.dispatched, r, q.unreliable)
    && (forall k :: 1 <= k < |q.list| ==> q.list[k].sequenced)
    && (keep >= 0 ==> forall k :: 0 <= k < |q.list| && q.list[k].sequenced ==>
          if k == keep then r <= q.list[k].n else !Ripe(q.list[k], r))
  }

  /** What is dispatched anew comes after what was before, and follows reliable number `r`. */
  ghost predicate Grows(q: Queue, d: Queue, r: nat) {
    && q.dispatched <= d.dispatched
    && forall k :: |q.dispatched| <= k < |d.dispatched| && d.dispatched[k].sequenced ==>
         d.dispatched[k].n == r && d.dispatched[k].unreliable >= 1
  }

  /** Everything complete whose turn it is gets dispatched; nothing is dropped but what
      was overtaken or still lacks fragments when its turn comes. */
  ghost predicate Dispatched(q: Queue, d: Queue, r: nat) {
    && Grows(q, d, r)
    && (forall k :: 0 <= k < |q.list| && q.list[k].sequenced && Ripe(q.list[k], r) ==> q.list[k] in d.dispatched)
    && (forall k :: 0 <= k < |q.list| && q.list[k] !in d.dispatched && q.list[k] !in d.list ==>
          q.list[k].sequenced && (q.list[k].n < r || Incomplete(q.list[k], r)))
  }

  lemma DispatchKeeps(q: Queue, r: nat, keep: int)
    requires Prepared(q, r, keep)
    ensures Good(Dispatch(q, keep), r) && Dispatched(q, Dispatch(q, keep), r)
  {
    hide Pass, Done, Moved, Win, Wire, Labelled, Less, Later, Remaining, Dispatched, Sorted;
    var list := q.list;
    assert Passing(list, r, 0, Scan(0, 0, q.unreliable, []), q.unreliable) by {
      NothingMoved(list, r);
      LaterHere(list, r, q.unreliable);
    }
    var end := PassKeeps(list, r, 0, Scan(0, 0, q.unreliable, []), q.unreliable);
    var s := Pass(list, q.number, 0, Scan(0, 0, q.unreliable, []));
    DoneBounds(list, r, q.unreliable, s, end);
    RemainingGood(list, r, q.unreliable, s, end, keep);
    MovedDelivered(q.dispatched, list, r, q.unreliable, s, end);
    MovedNew(list, r, q.unreliable, s, end);
    AllAccounted(q, r, s, end, keep);
  }

  lemma NothingMoved(list: seq<Entry>, r: nat)
    ensures Moved(list, r, 0, [])
  {
  }

  lemma LaterHere(list: seq<Entry>, r: nat, u: nat)
    requires Ready(list, r, u)
    ensures forall j :: 0 <= j < |list| && list[j].sequenced && list[j].n == r ==> u < list[j].unreliable
  {
    forall j | 0 <= j < |list| && list[j].sequenced && list[j].n == r ensures u < list[j].unreliable {
      assert Passable(list[j], r, u);
    }
  }

  lemma DoneBounds(list: seq<Entry>, r: nat, u: nat, s: Scan, end: nat)
    requires Done(list, r, u, s, end)
    ensures s.drop <= end <= |list| && Moved(list, r, end, s.moved)
  {
  }

  lemma RemainingGood(list: seq<Entry>, r: nat, u: nat, s: Scan, end: nat, keep: int)
    requires Ready(list, r, u) && Done(list, r, u, s, end) && keep < |list|
    requires forall k :: 1 <= k < |list| ==> list[k].sequenced
    requires keep >= 0 ==> forall k :: 0 <= k < |list| && list[k].sequenced ==>
      if k == keep then r <= list[k].n else !Ripe(list[k], r)
    ensures var rest := Remaining(list, s, keep);
            Sorted(rest) && forall k :: 0 <= k < |rest| ==> rest[k].sequenced && Waiting(rest[k], r, s.unreliable)
  {
    hide Less, Win, Labelled;
    var rest := Remaining(list, s, keep);
    if Spared(list, s, keep) {
      assert list[keep].sequenced && Incomplete(list[keep], r);
      assert s.unreliable == u;
      assert Passable(list[keep], r, u);
    }
  }

  lemma MovedDelivered(before: seq<Entry>, list: seq<Entry>, r: nat, u: nat, s: Scan, end: nat)
    requires Ready(list, r, u) && Done(list, r, u, s, end) && Delivered(before, r, u)
    ensures Delivered(before + s.moved, r, s.unreliable)
  {
    hide Win, Counted, Complete, Wire;
    forall k | 0 <= k < |s.moved|
      ensures Complete(s.moved[k])
      ensures s.moved[k].sequenced ==> Later(s.moved[k], r, u) && !Later(s.moved[k], r, s.unreliable)
    {
      var j :| 0 <= j < end && list[..end][j] == s.moved[k];
      assert Passable(list[j], r, u);
      CompleteMeans(list[j]);
      if !list[j].sequenced {
        NothingRemains(list[j]);
      }
    }
  }

  /** An unsequenced packet comes whole. */
  lemma NothingRemains(e: Entry)
    requires Labelled(e) && !e.sequenced
    ensures e.remaining == 0
  {
  }

  lemma MovedNew(list: seq<Entry>, r: nat, u: nat, s: Scan, end: nat)
    requires Ready(list, r, u) && Done(list, r, u, s, end)
    ensures forall k :: 0 <= k < |s.moved| && s.moved[k].sequenced ==> s.moved[k].n == r && s.moved[k].unreliable >= 1
  {
    hide Win, Counted, Wire, Less, Later;
    forall k | 0 <= k < |s.moved| && s.moved[k].sequenced ensures s.moved[k].n == r && s.moved[k].unreliable >= 1 {
      var j :| 0 <= j < end && list[..end][j] == s.moved[k];
      assert Passable(list[j], r, u);
    }
  }

  lemma AllAccounted(q: Queue, r: nat, s: Scan, end: nat, keep: int)
    requires keep < |q.list| && Done(q.list, r, q.unreliable, s, end)
    requires forall k :: 0 <= k < |s.moved| && s.moved[k].sequenced ==> s.moved[k].n == r && s.moved[k].unreliable >= 1
    ensures Dispatched(q, q.(unreliable := s.unreliable, dispatched := q.dispatched + s.moved,
                             list := Remaining(q.list, s, keep)), r)
  {
    hide Less, Win, Labelled, Wire, Sorted, SomeRipe;
    var rest := Remaining(q.list, s, keep);
    forall k | s.drop <= k < |q.list| ensures q.list[k] in rest {
      assert q.list[s.drop..][k - s.drop] == q.list[k];
    }
    forall k | 0 <= k < |q.list| && q.list[k].sequenced && Ripe(q.list[k], r) ensures q.list[k] in s.moved {
      assert k < end;
    }
  }

  // ----- where a new entry goes

  /** The place the search finds is the right one. */
  ghost predicate Right(list: seq<Entry>, p: Place, e: Entry)
    requires match p case Before(i) => i <= |list| case Existing(i) => i < |list|
  {
    match p
    case Before(i) =>
      && (forall j :: 0 <= j < i && list[j].sequenced ==> Less(list[j], e))
      && (forall j :: i <= j < |list| && list[j].sequenced ==> Less(e, list[j]))
    case Existing(i) => list[i].sequenced && list[i].n == e.n && list[i].unreliable == e.unreliable
  }

  /** A sequenced entry that may be queued. */
  ghost predicate Placeable(e: Entry, r: nat) {
    e.sequenced && Labelled(e) && r <= e.n < r + TWO16
  }

  lemma Compared(list: seq<Entry>, k: nat, e: Entry, r: nat)
    requires k < |list| && Placeable(list[k], r) && Placeable(e, r)
    ensures var p := PlaceOf(list, k + 1, e.number, e.unreliable, Wire(r));
            if Less(list[k], e) then p == Before(k + 1)
            else if Less(e, list[k]) then p == PlaceOf(list, k, e.number, e.unreliable, Wire(r))
            else p == Existing(k) && list[k].n == e.n && list[k].unreliable == e.unreliable
  {
    hide Wire;
    WireOrder(e.n, list[k].n, r);
    WireOrder(list[k].n, e.n, r);
    if e.number == list[k].number {
      WireInjective(e.n, list[k].n);
    }
  }

  ghost predicate Held(list: seq<Entry>, r: nat) {
    Sorted(list) && forall k :: 0 <= k < |list| ==> Placeable(list[k], r)
  }

  /** The search finds the right place: the entry itself if it is there, or else where it
      keeps the list in order. */
  lemma {:induction false} PlaceRight(list: seq<Entry>, k: nat, e: Entry, r: nat)
    requires Held(list, r) && k <= |list| && Placeable(e, r)
    requires forall j :: k <= j < |list| ==> Less(e, list[j])
    ensures Right(list, PlaceOf(list, k, e.number, e.unreliable, Wire(r)), e)
  {
    hide Wire, Labelled, PlaceOf;
    if k == 0 {
      PlaceEnds(list, e, r);
    } else {
      Compared(list, k - 1, e, r);
      if Less(e, list[k - 1]) {
        PlaceRight(list, k - 1, e, r);
      }
    }
  }

  lemma PlaceEnds(list: seq<Entry>, e: Entry, r: nat)
    ensures PlaceOf(list, 0, e.number, e.unreliable, Wire(r)) == Before(0)
  {
  }

  // ----- arrivals

  lemma GoodHeld(q: Queue, r: nat)
    requires Good(q, r)
    ensures Held(q.list, r) && Ready(q.list, r, q.unreliable) && Delivered(q.dispatched, r, q.unreliable)
    ensures forall k :: 0 <= k < |q.list| ==> q.list[k].sequenced && r <= q.list[k].n && !Ripe(q.list[k], r)
  {
    hide Less;
    forall k | 0 <= k < |q.list| ensures Placeable(q.list[k], r) {
      assert Waiting(q.list[k], r, q.unreliable);
      CloseAhead(q.list[k].n, r);
    }
  }

  lemma CloseAhead(n: nat, r: nat)
    requires Win(n) <= Win(r) + 15
    ensures n < r + TWO16
  {
  }

  /** A command that refers to reliable number `e.n`, as the network may deliver it: not
      more than nine windows behind, and not a round ahead. */
  ghost predicate Timely(e: Entry, r: nat) {
    e.sequenced && Labelled(e) && if e.n < r then Win(r) <= Win(e.n) + 9 else e.n < r + TWO16
  }

  /** What is wanted is to come, and not too far ahead. */
  lemma WantedMeans(q: Queue, r: nat, e: Entry)
    requires q.number == Wire(r) && Timely(e, r)
    ensures Wanted(q, e.number, e.unreliable) <==> Passable(e, r, q.unreliable) && r <= e.n
  {
    hide Wire, Win;
    if e.n < r {
      Near(e.n, r);
      StaleAcceptedExactly(e.n, r);
    } else {
      AheadExact(e.n, r);
      WinMono(r, e.n);
      AcceptedMeans(e.number, Wire(r));
      if e.number == Wire(r) {
        WireInjective(e.n, r);
      }
    }
  }

  lemma InsertPrepared(q: Queue, r: nat, i: nat, e: Entry)
    requires Good(q, r) && i <= |q.list| && Passable(e, r, q.unreliable) && (e.sequenced ==> r <= e.n)
    requires e.sequenced ==> Right(q.list, Before(i), e)
    requires !e.sequenced ==> i == 0
    ensures Prepared(q.(list := Insert(q.list, i, e)), r, i)
  {
    hide Less, Wire, Labelled, Win, Later;
    GoodHeld(q, r);
    var p := q.(list := Insert(q.list, i, e));
    forall k | 0 <= k < |p.list| ensures Passable(p.list[k], r, p.unreliable) {
      assert p.list[k] == if k < i then q.list[k] else if k == i then e else q.list[k - 1];
    }
  }

  lemma WholeKeeps(q: Queue, r: nat, e: Entry, room: bool)
    requires Good(q, r) && Timely(e, r)
    ensures Good(HandleUnreliable(q, e, room), r) && Grows(q, HandleUnreliable(q, e, room), r)
  {
    hide Less, Wire, Labelled, Win, Later, Good, Accepted, PlaceOf, Dispatch, Wanted, Passable, Sorted, Held;
    GoodNumber(q, r);
    WantedMeans(q, r, e);
    if Wanted(q, e.number, e.unreliable) {
      GoodHeld(q, r);
      PassablePlaceable(e, r, q.unreliable);
      PlaceRight(q.list, |q.list|, e, r);
      match PlaceOf(q.list, |q.list|, e.number, e.unreliable, q.number)
      case Existing(_) =>
      case Before(i) =>
        InsertPrepared(q, r, i, e);
        DispatchKeeps(q.(list := Insert(q.list, i, e)), r, i);
    }
  }

  lemma GoodNumber(q: Queue, r: nat)
    requires Good(q, r)
    ensures q.number == Wire(r)
  {
  }

  lemma PassablePlaceable(e: Entry, r: nat, u: nat)
    requires Passable(e, r, u) && e.sequenced && r <= e.n
    ensures Placeable(e, r)
  {
    CloseAhead(e.n, r);
  }

  lemma UnsequencedKeeps(q: Queue, r: nat, e: Entry, room: bool)
    requires Good(q, r) && !e.sequenced && Labelled(e)
    ensures Good(HandleUnsequenced(q, e, room), r) && Grows(q, HandleUnsequenced(q, e, room), r)
  {
    hide Less, Wire, Labelled, Win, Later, Good, Dispatch, Sorted;
    if room {
      InsertPrepared(q, r, 0, e);
      DispatchKeeps(q.(list := Insert(q.list, 0, e)), r, 0);
    }
  }

  /** An unsequenced packet never waits. */
  lemma UnsequencedAtOnce(q: Queue, r: nat, e: Entry)
    requires Good(q, r) && !e.sequenced && Labelled(e)
    ensures e in HandleUnsequenced(q, e, true).dispatched
  {
    hide Less, Wire, Labelled, Win, Later, Dispatch, Sorted, Delivered;
    InsertPrepared(q, r, 0, e);
    DispatchKeeps(q.(list := Insert(q.list, 0, e)), r, 0);
    assert Insert(q.list, 0, e)[0] == e;
  }

  // ----- fragments

  lemma MarkKeeps(q: Queue, r: nat, at: nat, index: nat)
    requires Good(q, r) && at < |q.list| && index < |q.list[at].got|
    ensures Good(MarkAt(q, at, index), r) && Grows(q, MarkAt(q, at, index), r)
  {
    hide Less, Wire, Win, Dispatch;
    var p := q.(list := q.list[at := Mark(q.list[at], index)]);
    MarkedReady(q, r, at, index);
    if !q.list[at].got[index] && p.list[at].remaining <= 0 {
      DispatchKeeps(p, r, NONE);
    }
  }

  lemma MarkedReady(q: Queue, r: nat, at: nat, index: nat)
    requires Good(q, r) && at < |q.list| && index < |q.list[at].got|
    ensures var p := q.(list := q.list[at := Mark(q.list[at], index)]);
            && Prepared(p, r, NONE)
            && (q.list[at].got[index] || p.list[at].remaining > 0 ==> Good(p, r))
  {
    hide Wire, Win, Labelled, Complete;
    var p := q.(list := q.list[at := Mark(q.list[at], index)]);
    assert Waiting(q.list[at], r, q.unreliable);
    LabelledMark(q.list[at], index);
    forall i, j | 0 <= i < j < |p.list| && p.list[i].sequenced && p.list[j].sequenced
      ensures Less(p.list[i], p.list[j])
    {
      assert Less(q.list[i], q.list[j]);
    }
    forall k | 0 <= k < |p.list|
      ensures Passable(p.list[k], r, q.unreliable)
      ensures q.list[at].got[index] || p.list[at].remaining > 0 ==> Waiting(p.list[k], r, q.unreliable)
    {
      assert Waiting(q.list[k], r, q.unreliable);
    }
  }

  lemma LabelledMark(e: Entry, index: nat)
    requires index < |e.got| && e.sequenced && Labelled(e)
    ensures Labelled(Mark(e, index))
  {
    hide Wire;
    Fragments.ClearSet(e.got, index);
  }

  /** An entry as a first fragment opens it: every fragment is missing. */
  predicate Opened(e: Entry) {
    e.remaining == e.fragmentCount == |e.got| > 0 && forall j :: 0 <= j < |e.got| ==> !e.got[j]
  }

  /** The entry just opened is still there after the dispatch that follows. */
  lemma OpenedStays(q: Queue, r: nat, i: nat)
    requires Prepared(q, r, i) && q.list[i].sequenced && q.list[i].remaining > 0
    ensures var d, at := Dispatch(q, i), KeptAt(q, i);
            0 <= at < |d.list| && d.list[at] == q.list[i]
  {
    hide Pass, Moved, Win, Wire, Labelled, Less, Later, Sorted;
    NothingMoved(q.list, r);
    LaterHere(q.list, r, q.unreliable);
    var end := PassKeeps(q.list, r, 0, Scan(0, 0, q.unreliable, []), q.unreliable);
    var s := Pass(q.list, q.number, 0, Scan(0, 0, q.unreliable, []));
    MovedRipe(q.list, r, end, s.moved);
    if i < s.drop {
      assert q.list[i] !in s.moved;
      assert Remaining(q.list, s, i) == [q.list[i]] + q.list[s.drop..];
    } else {
      assert Remaining(q.list, s, i) == q.list[s.drop..];
    }
  }

  lemma MovedRipe(list: seq<Entry>, r: nat, end: nat, moved: seq<Entry>)
    requires end <= |list| && Moved(list, r, end, moved)
    ensures forall k :: 0 <= k < |moved| && moved[k].sequenced ==> moved[k].remaining <= 0
  {
  }

  /** Marking a fragment of the packet whose turn it is dispatches exactly when it was
      the last one missing, and then that packet is among those dispatched. */
  lemma LastFragmentDispatches(q: Queue, r: nat, at: nat, index: nat)
    requires Good(q, r) && at < |q.list| && q.list[at].n == r && index < |q.list[at].got|
    ensures var d, m := MarkAt(q, at, index), Mark(q.list[at], index);
            && (d.dispatched != q.dispatched <==> Complete(m))
            && (Complete(m) ==> m in d.dispatched)
  {
    hide Less, Wire, Win, Dispatch, Complete, Counted, Sorted;
    var e, m := q.list[at], Mark(q.list[at], index);
    assert Waiting(e, r, q.unreliable);
    LabelledMark(e, index);
    CompleteMeans(m);
    MarkedReady(q, r, at, index);
    var p := q.(list := q.list[at := m]);
    if !e.got[index] && m.remaining <= 0 {
      DispatchKeeps(p, r, NONE);
      assert p.list[at] == m && Later(m, r, q.unreliable);
    }
  }

  lemma FragmentKeeps(q: Queue, r: nat, e: Entry, index: nat, room: bool)
    requires Good(q, r) && Timely(e, r) && Opened(e) && index < e.fragmentCount
    ensures Good(HandleFragment(q, e, index, room), r) && Grows(q, HandleFragment(q, e, index, room), r)
  {
    hide Less, Wire, Labelled, Win, Later, Good, Accepted, PlaceOf, Dispatch, Wanted, Passable, Sorted, Held, KeptAt,
         MarkAt;
    GoodNumber(q, r);
    WantedMeans(q, r, e);
    if Wanted(q, e.number, e.unreliable) {
      GoodHeld(q, r);
      PassablePlaceable(e, r, q.unreliable);
      PlaceRight(q.list, |q.list|, e, r);
      match PlaceOf(q.list, |q.list|, e.number, e.unreliable, q.number)
      case Existing(i) =>
        if q.list[i].fragmentCount == e.fragmentCount == |q.list[i].got| {
          MarkKeeps(q, r, i, index);
        }
      case Before(i) =>
        if room {
          var p := q.(list := Insert(q.list, i, e));
          InsertPrepared(q, r, i, e);
          DispatchKeeps(p, r, i);
          OpenedStays(p, r, i);
          MarkKeeps(Dispatch(p, i), r, KeptAt(p, i), index);
        }
    }
  }

  /** The reliable part moves on, by at most nine windows. */
  lemma AdvanceKeeps(q: Queue, r: nat, r': nat)
    requires Good(q, r) && r < r' && Win(r') <= Win(r) + 9
    ensures Good(Advance(q, Wire(r')), r') && Grows(q, Advance(q, Wire(r')), r')
  {
    hide Less, Wire, Win, Dispatch, Sorted;
    AdvancePrepared(q, r, r');
    DispatchKeeps(q.(number := Wire(r'), unreliable := 0), r', NONE);
  }

  lemma AdvancePrepared(q: Queue, r: nat, r': nat)
    requires Good(q, r) && r < r' && Win(r') <= Win(r) + 9
    ensures Prepared(q.(number := Wire(r'), unreliable := 0), r', NONE)
  {
    hide Less, Wire, Win, Sorted;
    var p := q.(number := Wire(r'), unreliable := 0);
    forall k | 0 <= k < |p.list| ensures Passable(p.list[k], r', 0) {
      assert Waiting(q.list[k], r, q.unreliable);
      if p.list[k].sequenced {
        WinMono(r, r');
        WinMono(r, p.list[k].n);
      }
    }
  }

  // ----- whole runs

  datatype System = System(queue: Queue, reached: nat)

  datatype Action =
    | Whole(e: Entry, room: bool)
    | Fragment(e: Entry, index: nat, room: bool)
    | Unsequenced(e: Entry, room: bool)
    | MoveOn(reached: nat)

  const START := System(Queue(0, 0, [], []), 0)

  /** Anything may arrive at any time, if it is timely. */
  ghost predicate Enabled(y: System, act: Action) {
    match act
    case Whole(e, _) => Timely(e, y.reached) && e.fragmentCount == 0
    case Fragment(e, index, _) =>
      Timely(e, y.reached) && Opened(e) && index < e.fragmentCount
    case Unsequenced(e, _) => !e.sequenced && Labelled(e)
    case MoveOn(r) => y.reached < r && Win(r) <= Win(y.reached) + 9
  }

  ghost function Next(y: System, act: Action): System
    requires Enabled(y, act)
  {
    match act
    case Whole(e, room) => y.(queue := HandleUnreliable(y.queue, e, room))
    case Fragment(e, index, room) => y.(queue := HandleFragment(y.queue, e, index, room))
    case Unsequenced(e, room) => y.(queue := HandleUnsequenced(y.queue, e, room))
    case MoveOn(r) => System(Advance(y.queue, Wire(r)), r)
  }

  ghost predicate Run(run: seq<System>) {
    && |run| > 0 && run[0] == START
    && forall k :: 0 <= k < |run| - 1 ==> Step(run[k], run[k + 1])
  }

  ghost predicate Step(y: System, z: System) {
    exists act: Action :: Enabled(y, act) && z == Next(y, act)
  }

  lemma StepKeeps(y: System, act: Action)
    requires Good(y.queue, y.reached) && Enabled(y, act)
    ensures var z := Next(y, act); Good(z.queue, z.reached) && Grows(y.queue, z.queue, z.reached)
  {
    hide Good, HandleUnreliable, HandleFragment, HandleUnsequenced, Advance, Labelled, Timely, Win, Wire;
    match act
    case Whole(e, room) => WholeKeeps(y.queue, y.reached, e, room);
    case Fragment(e, index, room) => FragmentKeeps(y.queue, y.reached, e, index, room);
    case Unsequenced(e, room) => UnsequencedKeeps(y.queue, y.reached, e, room);
    case MoveOn(r) => AdvanceKeeps(y.queue, y.reached, r);
  }

  lemma {:induction false} RunGood(run: seq<System>, k: nat)
    requires Run(run) && k < |run|
    ensures Good(run[k].queue, run[k].reached)
  {
    hide Good, Enabled, Next;
    if k == 0 {
      assert Good(START.queue, 0) by { StartGood(); }
    } else {
      RunGood(run, k - 1);
      assert Step(run[k - 1], run[k - 1 + 1]);
      var act: Action :| Enabled(run[k - 1], act) && run[k] == Next(run[k - 1], act);
      StepKeeps(run[k - 1], act);
    }
  }

  lemma StartGood()
    ensures Good(START.queue, 0)
  {
  }

  /** Over every run, sequenced unreliable packets are dispatched strictly in the order
      they were sent, so none twice; and nothing waits in the list that was overtaken. */
  lemma OrderedAndOnce(run: seq<System>, k: nat)
    requires Run(run) && k < |run|
    ensures Sorted(run[k].queue.dispatched)
    ensures var q := run[k].queue;
            forall i, j :: 0 <= i < |q.dispatched| && 0 <= j < |q.list|
                             && q.dispatched[i].sequenced && q.list[j].sequenced ==>
              Less(q.dispatched[i], q.list[j])
  {
    hide Run, Wire, Win, Labelled;
    RunGood(run, k);
    var q := run[k].queue;
    forall i, j | 0 <= i < |q.dispatched| && 0 <= j < |q.list| && q.dispatched[i].sequenced && q.list[j].sequenced
      ensures Less(q.dispatched[i], q.list[j])
    {
      assert Waiting(q.list[j], run[k].reached, q.unreliable);
    }
  }

  /** Over every run, a packet that is dispatched lacks no fragment. */
  lemma DispatchedComplete(run: seq<System>, k: nat)
    requires Run(run) && k < |run|
    ensures forall e :: e in run[k].queue.dispatched ==> Complete(e)
  {
    hide Run, Wire, Win, Labelled, Complete;
    RunGood(run, k);
  }
}
