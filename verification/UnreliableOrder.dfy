/**
 Ordering of unreliable packets: what one pass over the list dispatches, in which order,
 and what it leaves.
 */
module UnreliableOrder {
  import opened Words
  import opened ReliableWindows
  import opened UnreliableQueue
  import Fragments

  /** The order packets were sent in: by the reliable command before, then by count. */
  predicate Less(a: Entry, b: Entry) {
    a.n < b.n || (a.n == b.n && a.unreliable < b.unreliable)
  }

  /** Later than everything dispatched when the reliable part stands at `r` and the last
      unreliable packet after it was `u`. */
  predicate Later(e: Entry, r: nat, u: nat) {
    r < e.n || (r == e.n && u < e.unreliable)
  }

  ghost predicate Sorted(list: seq<Entry>) {
    forall i, j :: 0 <= i < j < |list| && list[i].sequenced && list[j].sequenced ==> Less(list[i], list[j])
  }

  /** What remains is the number of flags still clear; a whole packet has none. */
  ghost predicate Counted(e: Entry) {
    e.fragmentCount == |e.got| && e.remaining == Fragments.Clear(e.got)
  }

  /** No fragment of the packet is missing. */
  predicate Complete(e: Entry) {
    e.fragmentCount == |e.got| && forall j :: 0 <= j < |e.got| ==> e.got[j]
  }

  lemma CompleteMeans(e: Entry)
    requires Counted(e)
    ensures Complete(e) <==> e.remaining <= 0
  {
    Fragments.ClearNone(e.got);
  }

  ghost predicate Labelled(e: Entry) {
    && Counted(e)
    && if e.sequenced then e.number == Wire(e.n) && e.unreliable >= 1
       else e.number == 0 && e.unreliable == 0 && e.fragmentCount == 0
  }

  /** An entry as the list may hold it before a pass: overtaken not too long ago, or still
      to come and not too far ahead. */
  ghost predicate Passable(e: Entry, r: nat, u: nat) {
    && Labelled(e)
    && (e.sequenced ==>
          if e.n < r then Win(r) <= Win(e.n) + 9 else Win(e.n) <= Win(r) + 6 && Later(e, r, u))
  }

  /** An entry as a pass leaves it: still to come, and not complete if its turn is now. */
  ghost predicate Waiting(e: Entry, r: nat, u: nat) {
    Passable(e, r, u) && (e.sequenced ==> r <= e.n && (e.n == r ==> e.remaining > 0))
  }

  predicate Ripe(e: Entry, r: nat) {
    e.n == r && e.remaining <= 0
  }

  ghost predicate Ready(list: seq<Entry>, r: nat, u: nat) {
    Sorted(list) && forall k :: 0 <= k < |list| ==> Passable(list[k], r, u)
  }

  /** What was dispatched is complete, in order, and not later than the present position. */
  ghost predicate Delivered(list: seq<Entry>, r: nat, u: nat) {
    && Sorted(list)
    && (forall k :: 0 <= k < |list| && list[k].sequenced ==> !Later(list[k], r, u))
    && (forall k :: 0 <= k < |list| ==> Complete(list[k]))
  }

  /** Between calls only sequenced packets wait. */
  ghost predicate Good(q: Queue, r: nat) {
    && q.number == Wire(r)
    && Sorted(q.list) && (forall k :: 0 <= k < |q.list| ==> q.list[k].sequenced && Waiting(q.list[k], r, q.unreliable))
    && Delivered(q.dispatched, r, q.unreliable)
  }

  // ----- what the numbers on the wire tell

  lemma Judged(e: Entry, r: nat, u: nat)
    requires Passable(e, r, u) && e.sequenced
    ensures e.number == Wire(r) <==> e.n == r
    ensures e.n < r ==> !Accepted(e.number, Wire(r))
    ensures e.n > r ==> Accepted(e.number, Wire(r))
  {
    hide Accepted, Wire;
    if e.n < r {
      Near(e.n, r);
      StaleAcceptedExactly(e.n, r);
    } else {
      Near(r, e.n);
      AheadExact(e.n, r);
      WinMono(r, e.n);
    }
    if e.number == Wire(r) {
      WireInjective(e.n, r);
    }
    AcceptedMeans(e.number, Wire(r));
  }

  lemma AcceptedMeans(number: u16, base: u16)
    ensures Accepted(number, base) <==> 0 <= Ahead(number, base) < FREE_WINDOWS - 1
  {
  }

  lemma Near(a: nat, b: nat)
    requires a <= b && Win(b) <= Win(a) + 9
    ensures b < a + TWO16
  {
  }

  // ----- the pass

  ghost predicate Passing(list: seq<Entry>, r: nat, i: nat, s: Scan, u: nat) {
    && s.drop <= s.start <= i <= |list| && u <= s.unreliable
    && (forall j :: s.start <= j < i && list[j].sequenced ==> Ripe(list[j], r))
    && Stuck(list, r, s.drop, s.start)
    && (s.start == i ==> forall j :: s.drop <= j < i ==> s.unreliable < list[j].unreliable)
    && (forall j :: i <= j < |list| && list[j].sequenced && list[j].n == r ==> s.unreliable < list[j].unreliable)
    && Behind(list, r, i, s.unreliable)
    && (s.unreliable == u || SomeRipe(list, r, i))
    && Moved(list, r, s.start, s.moved)
  }

  predicate Incomplete(e: Entry, r: nat) {
    e.sequenced && e.n == r && e.remaining > 0
  }

  ghost predicate Stuck(list: seq<Entry>, r: nat, a: nat, b: nat)
    requires a <= b <= |list|
  {
    forall j :: a <= j < b ==> Incomplete(list[j], r)
  }

  ghost predicate Behind(list: seq<Entry>, r: nat, i: nat, u: nat)
    requires i <= |list|
  {
    forall j :: 0 <= j < i && list[j].sequenced ==> list[j].n <= r && (Ripe(list[j], r) ==> list[j].unreliable <= u)
  }

  ghost predicate SomeRipe(list: seq<Entry>, r: nat, i: nat)
    requires i <= |list|
  {
    exists j :: 0 <= j < i && list[j].sequenced && Ripe(list[j], r)
  }

  lemma OneMore(list: seq<Entry>, r: nat, i: nat, u: nat)
    requires i < |list|
    ensures SomeRipe(list, r, i) ==> SomeRipe(list, r, i + 1)
    ensures list[i].sequenced && Ripe(list[i], r) ==> SomeRipe(list, r, i + 1)
    ensures Behind(list, r, i, u) && !list[i].sequenced ==> Behind(list, r, i + 1, u)
    ensures Behind(list, r, i, u) && list[i].n <= r && !Ripe(list[i], r) ==> Behind(list, r, i + 1, u)
    ensures Behind(list, r, i, u) && Ripe(list[i], r) && u <= list[i].unreliable ==>
              Behind(list, r, i + 1, list[i].unreliable)
  {
  }

  /** The entries moved are the ripe and the unsequenced ones before `start`, in order. */
  ghost predicate Moved(list: seq<Entry>, r: nat, start: nat, moved: seq<Entry>)
    requires start <= |list|
  {
    && Sorted(moved)
    && (forall k :: 0 <= k < |moved| ==> moved[k] in list[..start] && (moved[k].sequenced ==> Ripe(moved[k], r)))
    && (forall k, j :: 0 <= k < |moved| && start <= j < |list| && moved[k].sequenced && list[j].sequenced ==>
          Less(moved[k], list[j]))
    && (forall j :: 0 <= j < start && (!list[j].sequenced || Ripe(list[j], r)) ==> list[j] in moved)
  }

  lemma MovedPending(list: seq<Entry>, r: nat, start: nat, i: nat, moved: seq<Entry>)
    requires Sorted(list) && start <= i <= |list| && Moved(list, r, start, moved)
    requires forall j :: start <= j < i && list[j].sequenced ==> Ripe(list[j], r)
    ensures Moved(list, r, i, moved + list[start..i])
  {
    hide Less, Ripe;
    var all, pending := moved + list[start..i], list[start..i];
    forall k | 0 <= k < |all| ensures all[k] in list[..i] && (all[k].sequenced ==> Ripe(all[k], r)) {
      if k < |moved| {
        assert moved[k] in list[..start];
      } else {
        assert all[k] == list[start + k - |moved|];
      }
    }
    forall j | 0 <= j < i && (!list[j].sequenced || Ripe(list[j], r)) ensures list[j] in all {
      if j < start {
        assert list[j] in moved;
      } else {
        assert pending[j - start] == list[j];
      }
    }
    forall k, l | 0 <= k < l < |all| && all[k].sequenced && all[l].sequenced ensures Less(all[k], all[l]) {
      if k >= |moved| {
        assert all[k] == list[start + k - |moved|] && all[l] == list[start + l - |moved|];
      } else if l >= |moved| {
        assert all[l] == list[start + l - |moved|];
      }
    }
    forall k, j | 0 <= k < |all| && i <= j < |list| && all[k].sequenced && list[j].sequenced
      ensures Less(all[k], list[j])
    {
      if k >= |moved| {
        assert all[k] == list[start + k - |moved|];
      }
    }
  }

  /** One more entry that is neither ripe nor unsequenced stays where it is. */
  lemma MovedSkips(list: seq<Entry>, r: nat, i: nat, moved: seq<Entry>)
    requires i < |list| && Moved(list, r, i, moved) && list[i].sequenced && !Ripe(list[i], r)
    ensures Moved(list, r, i + 1, moved)
  {
    assert list[..i + 1] == list[..i] + [list[i]];
  }

  /** What a finished pass guarantees; it ended at entry `end`. */
  ghost predicate Done(list: seq<Entry>, r: nat, u: nat, s: Scan, end: nat) {
    && s.drop <= end <= |list| && u <= s.unreliable
    && Moved(list, r, end, s.moved) && Stuck(list, r, s.drop, end)
    && (end < |list| ==> list[end].sequenced)
    && (forall k :: s.drop <= k < |list| ==> Waiting(list[k], r, s.unreliable))
    && Behind(list, r, end, s.unreliable)
    && (forall k :: end <= k < |list| && list[k].sequenced ==> list[k].n > r)
    && (s.unreliable == u || SomeRipe(list, r, end))
  }

  lemma Finished(list: seq<Entry>, r: nat, i: nat, s: Scan, u: nat)
    requires Ready(list, r, u) && Passing(list, r, i, s, u)
    requires i == |list| || (list[i].sequenced && list[i].n > r)
    ensures Done(list, r, u, Finish(list, i, s), i)
  {
    hide Moved, Labelled, Win;
    MovedPending(list, r, s.start, i, s.moved);
    var f := Finish(list, i, s);
    if s.start == i {
      assert list[s.start..i] == [] && s.moved + [] == s.moved;
    }
    forall k | i <= k < |list| && list[k].sequenced ensures list[k].n > r {
    }
    forall k | f.drop <= k < |list| ensures Waiting(list[k], r, f.unreliable) {
      assert Passable(list[k], r, u);
    }
  }

  /** What a pass does with a list in order. */
  lemma {:induction false} PassKeeps(list: seq<Entry>, r: nat, i: nat, s: Scan, u: nat) returns (end: nat)
    requires Ready(list, r, u) && Passing(list, r, i, s, u)
    ensures Done(list, r, u, Pass(list, Wire(r), i, s), end)
    decreases |list| - i
  {
    hide Moved, Labelled, Win, Wire, Accepted, Done, Pass, Passing, Sorted, Later;
    PassingBounds(list, r, i, s, u);
    PassMeans(list, Wire(r), i, s);
    if i == |list| {
      end := i;
      Finished(list, r, i, s, u);
    } else if !list[i].sequenced {
      StepPlain(list, r, i, s, u);
      end := PassKeeps(list, r, i + 1, s, u);
    } else {
      Judged(list[i], r, u);
      if list[i].n == r {
        if list[i].remaining <= 0 {
          StepRipe(list, r, i, s, u);
          end := PassKeeps(list, r, i + 1, s.(unreliable := list[i].unreliable), u);
        } else {
          if s.start != i {
            StepIncomplete(list, r, i, s, u);
            end := PassKeeps(list, r, i + 1, s.(moved := s.moved + list[s.start..i], drop := i, start := i + 1), u);
          } else if s.drop != i {
            StepAgain(list, r, i, s, u);
            end := PassKeeps(list, r, i + 1, s.(drop := i - 1, start := i + 1), u);
          } else {
            StepAgain(list, r, i, s, u);
            end := PassKeeps(list, r, i + 1, s.(start := i + 1), u);
          }
        }
      } else if list[i].n > r {
        end := i;
        Finished(list, r, i, s, u);
      } else {
        StepStale(list, r, i, s, u);
        end := PassKeeps(list, r, i + 1, s.(moved := s.moved + list[s.start..i], drop := i + 1, start := i + 1), u);
      }
    }
  }

  lemma PassingBounds(list: seq<Entry>, r: nat, i: nat, s: Scan, u: nat)
    requires Passing(list, r, i, s, u)
    ensures s.drop <= s.start <= i <= |list|
  {
  }

  lemma PassMeans(list: seq<Entry>, base: u16, i: nat, s: Scan)
    requires s.start <= i <= |list| && s.drop <= i
    ensures Pass(list, base, i, s) ==
            if i == |list| then Finish(list, i, s)
            else if !list[i].sequenced then Pass(list, base, i + 1, s)
            else if list[i].number == base then
              if list[i].remaining <= 0 then Pass(list, base, i + 1, s.(unreliable := list[i].unreliable))
              else if s.start != i then
                Pass(list, base, i + 1, s.(moved := s.moved + list[s.start..i], drop := i, start := i + 1))
              else if s.drop != i then Pass(list, base, i + 1, s.(drop := i - 1, start := i + 1))
              else Pass(list, base, i + 1, s.(start := i + 1))
            else if Accepted(list[i].number, base) then Finish(list, i, s)
            else Pass(list, base, i + 1, s.(moved := s.moved + list[s.start..i], drop := i + 1, start := i + 1))
  {
  }

  lemma StepPlain(list: seq<Entry>, r: nat, i: nat, s: Scan, u: nat)
    requires Ready(list, r, u) && Passing(list, r, i, s, u) && i < |list| && !list[i].sequenced
    ensures Passing(list, r, i + 1, s, u)
  {
    hide Moved, Behind, SomeRipe, Labelled, Win, Passable;
    OneMore(list, r, i, s.unreliable);
  }

  lemma StepRipe(list: seq<Entry>, r: nat, i: nat, s: Scan, u: nat)
    requires Ready(list, r, u) && Passing(list, r, i, s, u) && i < |list| && list[i].sequenced && Ripe(list[i], r)
    ensures Passing(list, r, i + 1, s.(unreliable := list[i].unreliable), u)
  {
    hide Moved, Behind, SomeRipe, Labelled, Win, Passable;
    OneMore(list, r, i, s.unreliable);
  }

  lemma StepIncomplete(list: seq<Entry>, r: nat, i: nat, s: Scan, u: nat)
    requires Ready(list, r, u) && Passing(list, r, i, s, u) && i < |list| && Incomplete(list[i], r) && s.start != i
    ensures Passing(list, r, i + 1, s.(moved := s.moved + list[s.start..i], drop := i, start := i + 1), u)
  {
    hide Moved, Behind, SomeRipe, Ready, Ripe, Sorted;
    OneMore(list, r, i, s.unreliable);
    ReadySorted(list, r, u);
    RipeMeans(list[i], r);
    MovedPending(list, r, s.start, i, s.moved);
    MovedSkips(list, r, i, s.moved + list[s.start..i]);
  }

  lemma StepAgain(list: seq<Entry>, r: nat, i: nat, s: Scan, u: nat)
    requires Ready(list, r, u) && Passing(list, r, i, s, u) && i < |list| && Incomplete(list[i], r) && s.start == i
    ensures s.drop != i ==> s.drop < i && Passing(list, r, i + 1, s.(drop := i - 1, start := i + 1), u)
    ensures s.drop == i ==> Passing(list, r, i + 1, s.(start := i + 1), u)
  {
    hide Moved, Behind, SomeRipe, Ready, Ripe, Sorted;
    OneMore(list, r, i, s.unreliable);
    RipeMeans(list[i], r);
    MovedSkips(list, r, i, s.moved);
  }

  lemma ReadySorted(list: seq<Entry>, r: nat, u: nat)
    requires Ready(list, r, u)
    ensures Sorted(list)
  {
  }

  lemma RipeMeans(e: Entry, r: nat)
    ensures Ripe(e, r) <==> e.n == r && e.remaining <= 0
  {
  }

  lemma StepStale(list: seq<Entry>, r: nat, i: nat, s: Scan, u: nat)
    requires Ready(list, r, u) && Passing(list, r, i, s, u) && i < |list| && list[i].sequenced && list[i].n < r
    ensures Passing(list, r, i + 1, s.(moved := s.moved + list[s.start..i], drop := i + 1, start := i + 1), u)
  {
    hide Moved, Behind, SomeRipe, Ready, Ripe, Sorted;
    OneMore(list, r, i, s.unreliable);
    ReadySorted(list, r, u);
    RipeMeans(list[i], r);
    MovedPending(list, r, s.start, i, s.moved);
    MovedSkips(list, r, i, s.moved + list[s.start..i]);
  }
}
