/**
 Where queued and dispatched packets come from: whatever a receiver of unreliable packets
 holds or has dispatched, some command brought it.
 */
module UnreliableOrigin {
  import opened Words
  import opened ReliableWindows
  import opened UnreliableQueue

  /** What a command tells of its packet, whichever fragment it brings. */
  datatype Label = Label(number: u16, unreliable: u16, fragmentCount: nat, packet: nat, n: nat)

  function LabelOf(e: Entry): Label {
    Label(e.number, e.unreliable, e.fragmentCount, e.packet, e.n)
  }

  predicate Known(e: Entry, known: set<Label>) {
    e.sequenced ==> LabelOf(e) in known
  }

  ghost predicate AllKnown(list: seq<Entry>, known: set<Label>) {
    forall k :: 0 <= k < |list| ==> Known(list[k], known)
  }

  /** Every sequenced packet queued or dispatched is one of those known. */
  ghost predicate Within(q: Queue, known: set<Label>) {
    AllKnown(q.list, known) && AllKnown(q.dispatched, known)
  }

  lemma {:induction false} PassWithin(list: seq<Entry>, base: u16, i: nat, s: Scan, known: set<Label>)
    requires s.start <= i <= |list| && s.drop <= i
    requires AllKnown(list, known) && AllKnown(s.moved, known)
    ensures AllKnown(Pass(list, base, i, s).moved, known)
    decreases |list| - i
  {
    hide Known, Accepted;
    var more := s.(moved := s.moved + list[s.start..i]);
    if i < |list| {
      if !list[i].sequenced {
        PassWithin(list, base, i + 1, s, known);
      } else if list[i].number == base {
        if list[i].remaining <= 0 {
          PassWithin(list, base, i + 1, s.(unreliable := list[i].unreliable), known);
        } else if s.start != i {
          PassWithin(list, base, i + 1, more.(drop := i, start := i + 1), known);
        } else if s.drop != i {
          PassWithin(list, base, i + 1, s.(drop := i - 1, start := i + 1), known);
        } else {
          PassWithin(list, base, i + 1, s.(start := i + 1), known);
        }
      } else if !Accepted(list[i].number, base) {
        PassWithin(list, base, i + 1, more.(drop := i + 1, start := i + 1), known);
      }
    }
  }

  lemma DispatchWithin(q: Queue, keep: int, known: set<Label>)
    requires Within(q, known) && keep < |q.list|
    ensures Within(Dispatch(q, keep), known)
  {
    hide Known, Pass;
    PassWithin(q.list, q.number, 0, Scan(0, 0, q.unreliable, []), known);
  }

  lemma MarkWithin(q: Queue, at: nat, index: nat, known: set<Label>)
    requires Within(q, known) && at < |q.list| && index < |q.list[at].got|
    ensures Within(MarkAt(q, at, index), known)
  {
    hide Dispatch;
    var p := q.(list := q.list[at := Mark(q.list[at], index)]);
    assert Within(p, known);
    if !q.list[at].got[index] && p.list[at].remaining <= 0 {
      DispatchWithin(p, NONE, known);
    }
  }

  lemma InsertWithin(q: Queue, i: nat, e: Entry, known: set<Label>)
    requires Within(q, known) && i <= |q.list| && Known(e, known)
    ensures Within(q.(list := Insert(q.list, i, e)), known)
  {
    hide Known;
  }

  lemma WholeWithin(q: Queue, e: Entry, room: bool, known: set<Label>)
    requires Within(q, known) && Known(e, known)
    ensures Within(HandleUnreliable(q, e, room), known)
  {
    hide Known, Dispatch, Within, Insert, Wanted, PlaceOf;
    match PlaceOf(q.list, |q.list|, e.number, e.unreliable, q.number)
    case Existing(_) =>
    case Before(i) =>
      InsertWithin(q, i, e, known);
      InsertLength(q.list, i, e);
      DispatchWithin(q.(list := Insert(q.list, i, e)), i, known);
  }

  lemma InsertLength(list: seq<Entry>, i: nat, e: Entry)
    requires i <= |list|
    ensures |Insert(list, i, e)| == |list| + 1
  {
  }

  lemma UnsequencedWithin(q: Queue, e: Entry, room: bool, known: set<Label>)
    requires Within(q, known) && Known(e, known)
    ensures Within(HandleUnsequenced(q, e, room), known)
  {
    hide Known, Dispatch, Within, Insert;
    InsertWithin(q, 0, e, known);
    InsertLength(q.list, 0, e);
    DispatchWithin(q.(list := Insert(q.list, 0, e)), 0, known);
  }

  lemma FragmentWithin(q: Queue, e: Entry, index: nat, room: bool, known: set<Label>)
    requires Within(q, known) && Known(e, known) && index < e.fragmentCount == |e.got|
    ensures Within(HandleFragment(q, e, index, room), known)
  {
    hide Known, Dispatch, Within, Insert, Wanted, PlaceOf, MarkAt, KeptAt;
    match PlaceOf(q.list, |q.list|, e.number, e.unreliable, q.number)
    case Existing(i) =>
      if q.list[i].fragmentCount == e.fragmentCount == |q.list[i].got| {
        MarkWithin(q, i, index, known);
      }
    case Before(i) =>
      var p := q.(list := Insert(q.list, i, e));
      InsertWithin(q, i, e, known);
      InsertLength(q.list, i, e);
      DispatchWithin(p, i, known);
      var d, at := Dispatch(p, i), KeptAt(p, i);
      if 0 <= at < |d.list| && d.list[at] == e {
        MarkWithin(d, at, index, known);
      }
  }

  lemma AdvanceWithin(q: Queue, number: u16, known: set<Label>)
    requires Within(q, known)
    ensures Within(Advance(q, number), known)
  {
    DispatchWithin(q.(number := number, unreliable := 0), NONE, known);
  }

  lemma MoreKnown(q: Queue, known: set<Label>, more: set<Label>)
    requires Within(q, known) && known <= more
    ensures Within(q, more)
  {
  }
}
