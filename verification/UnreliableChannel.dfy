/**
 Receiving unreliable packets as the program runs it, in place on the list, proved
 against the functions of UnreliableQueue.
 */
module UnreliableChannel {
  import opened Words
  import opened ReliableWindows
  import opened UnreliableQueue

  class Channel {
    var incomingReliableSequenceNumber: u16
    var incomingUnreliableSequenceNumber: u16
    var incomingUnreliableCommands: seq<Entry>
    var dispatchedCommands: seq<Entry>

    constructor ()
      ensures Value() == Queue(0, 0, [], [])
    {
      incomingReliableSequenceNumber, incomingUnreliableSequenceNumber := 0, 0;
      incomingUnreliableCommands, dispatchedCommands := [], [];
    }

    function Value(): Queue
      reads this
    {
      Queue(incomingReliableSequenceNumber, incomingUnreliableSequenceNumber, incomingUnreliableCommands,
            dispatchedCommands)
    }

    /** One walk over the list, moving runs of what is due and noting what to drop. */
    method DispatchIncomingUnreliableCommands(keep: int)
      requires keep < |incomingUnreliableCommands|
      modifies this
      ensures Value() == Dispatch(old(Value()), keep)
    {
      ghost var was := Value();
      var list, base := incomingUnreliableCommands, incomingReliableSequenceNumber;
      var current, start, dropped: nat := 0, 0, 0;
      var moved: seq<Entry> := [];
      while current < |list|
        invariant start <= current <= |list| && dropped <= current
        invariant list == was.list && base == was.number
        invariant incomingReliableSequenceNumber == was.number && dispatchedCommands == was.dispatched
        invariant Pass(list, base, 0, Scan(0, 0, was.unreliable, []))
               == Pass(list, base, current, Scan(start, dropped, incomingUnreliableSequenceNumber, moved))
      {
        var e := list[current];
        if !e.sequenced {
          current := current + 1;
          continue;
        }
        if e.number == base {
          if e.remaining <= 0 {
            incomingUnreliableSequenceNumber := e.unreliable;
            current := current + 1;
            continue;
          }
          if start != current {
            moved := moved + list[start..current];
            dropped := current;
          } else if dropped != current {
            dropped := current - 1;
          }
        } else {
          var window, currentWindow := e.number / WINDOW_SIZE, base / WINDOW_SIZE;
          if e.number < base {
            window := window + WINDOWS;
          }
          if window >= currentWindow && window < currentWindow + FREE_WINDOWS - 1 {
            break;
          }
          dropped := current + 1;
          if start != current {
            moved := moved + list[start..current];
          } else {
            assert moved + list[start..current] == moved;
          }
        }
        start := current + 1;
        current := current + 1;
      }
      ghost var s := Scan(start, dropped, incomingUnreliableSequenceNumber, moved);
      assert Pass(list, base, current, s) == Finish(list, current, s);
      if start != current {
        moved := moved + list[start..current];
        dropped := current;
      }
      var spared := 0 <= keep < dropped && list[keep] !in moved;
      dispatchedCommands := dispatchedCommands + moved;
      incomingUnreliableCommands := (if spared then [list[keep]] else []) + list[dropped..];
    }

    method FindPlace(number: u16, unreliable: u16) returns (p: Place)
      ensures p == PlaceOf(incomingUnreliableCommands, |incomingUnreliableCommands|, number, unreliable,
                           incomingReliableSequenceNumber)
    {
      var k: nat := |incomingUnreliableCommands|;
      while k > 0
        invariant k <= |incomingUnreliableCommands|
        invariant PlaceOf(incomingUnreliableCommands, |incomingUnreliableCommands|, number, unreliable,
                          incomingReliableSequenceNumber)
               == PlaceOf(incomingUnreliableCommands, k, number, unreliable, incomingReliableSequenceNumber)
      {
        var e := incomingUnreliableCommands[k - 1];
        if number >= incomingReliableSequenceNumber {
          if e.number < incomingReliableSequenceNumber {
            k := k - 1;
            continue;
          }
        } else if e.number >= incomingReliableSequenceNumber {
          break;
        }
        if e.number < number {
          break;
        }
        if e.number > number {
          k := k - 1;
          continue;
        }
        if e.unreliable <= unreliable {
          if e.unreliable < unreliable {
            break;
          }
          return Existing(k - 1);
        }
        k := k - 1;
      }
      return Before(k);
    }

    method HandleSendUnreliable(e: Entry, room: bool)
      modifies this
      ensures Value() == HandleUnreliable(old(Value()), e, room)
    {
      if !Wanted(Value(), e.number, e.unreliable) {
        return;
      }
      var place := FindPlace(e.number, e.unreliable);
      if place.Before? && room {
        incomingUnreliableCommands := Insert(incomingUnreliableCommands, place.i, e);
        DispatchIncomingUnreliableCommands(place.i);
      }
    }

    method HandleSendUnsequenced(e: Entry, room: bool)
      modifies this
      ensures Value() == HandleUnsequenced(old(Value()), e, room)
    {
      if room {
        incomingUnreliableCommands := Insert(incomingUnreliableCommands, 0, e);
        DispatchIncomingUnreliableCommands(0);
      }
    }

    method MarkFragment(at: nat, index: nat)
      requires at < |incomingUnreliableCommands| && index < |incomingUnreliableCommands[at].got|
      modifies this
      ensures Value() == MarkAt(old(Value()), at, index)
    {
      var e := incomingUnreliableCommands[at];
      if e.got[index] {
        assert incomingUnreliableCommands[at := e] == incomingUnreliableCommands;
        return;
      }
      e := e.(remaining := e.remaining - 1, got := e.got[index := true]);
      incomingUnreliableCommands := incomingUnreliableCommands[at := e];
      if e.remaining <= 0 {
        DispatchIncomingUnreliableCommands(NONE);
      }
    }

    method HandleSendUnreliableFragment(e: Entry, index: nat, room: bool)
      requires index < e.fragmentCount == |e.got|
      modifies this
      ensures Value() == HandleFragment(old(Value()), e, index, room)
    {
      if !Wanted(Value(), e.number, e.unreliable) {
        return;
      }
      var place := FindPlace(e.number, e.unreliable);
      if place.Existing? {
        var other := incomingUnreliableCommands[place.i];
        if other.fragmentCount == e.fragmentCount == |other.got| {
          MarkFragment(place.i, index);
        }
      } else if room {
        incomingUnreliableCommands := Insert(incomingUnreliableCommands, place.i, e);
        var at := KeptAt(Value(), place.i);
        DispatchIncomingUnreliableCommands(place.i);
        if 0 <= at < |incomingUnreliableCommands| && incomingUnreliableCommands[at] == e {
          MarkFragment(at, index);
        }
      }
    }

    /** The reliable part has moved on. */
    method ReliableDispatched(number: u16)
      modifies this
      ensures Value() == Advance(old(Value()), number)
    {
      incomingReliableSequenceNumber := number;
      incomingUnreliableSequenceNumber := 0;
      DispatchIncomingUnreliableCommands(NONE);
    }
  }
}
