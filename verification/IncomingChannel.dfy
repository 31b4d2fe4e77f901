/**
 The receiving end of a reliable channel as the program runs it, in place: searching the
 list from its end, inserting, dispatching a prefix of it, and reassembling. Each method
 is proved against the function of ReliableReceiver that says what it computes.
 */
module IncomingChannel {
  import opened Words
  import opened ReliableWindows
  import opened ReliableReceiver

  /** What queueing a command comes to: stored at an index, dropped as unwanted, or refused. */
  datatype Queued = Stored(at: nat) | Discarded | Refused

  function Payloads(list: seq<Incoming>): seq<seq<byte>> {
    if list == [] then [] else Payloads(list[..|list| - 1]) + [list[|list| - 1].data]
  }

  /** Dispatch in two parts: what it has passed, and what is left to look at. */
  ghost function Passed(r: Receiver, k: nat, number: u16): Receiver
    requires k <= |r.incoming|
  {
    Receiver(number, r.incoming[k..], r.dispatched + Payloads(r.incoming[..k]))
  }

  lemma PassedNext(r: Receiver, k: nat, number: u16)
    requires k < |r.incoming| && HeadReady(Passed(r, k, number))
    ensures Dispatch(Passed(r, k, number)) == Dispatch(Passed(r, k + 1, LastNumber(r.incoming[k])))
  {
    hide Payloads;
    PayloadsNext(r.incoming, k);
    var p, q := Passed(r, k, number), Passed(r, k + 1, LastNumber(r.incoming[k]));
    assert p.incoming[0] == r.incoming[k] && p.incoming[1..] == q.incoming;
    assert p.dispatched + [r.incoming[k].data] == q.dispatched;
  }

  lemma NothingPassed(r: Receiver)
    ensures Passed(r, 0, r.number) == r
  {
  }

  lemma PassedHead(r: Receiver, k: nat, number: u16)
    requires k <= |r.incoming|
    ensures k == |r.incoming| ==> Dispatch(Passed(r, k, number)) == Passed(r, k, number)
    ensures var p := Passed(r, k, number);
            k < |r.incoming| ==>
              if r.incoming[k].remaining > 0 || r.incoming[k].number != U16(number + 1) then Dispatch(p) == p
              else HeadReady(p)
  {
    hide Payloads;
  }

  lemma PayloadsNext(list: seq<Incoming>, k: nat)
    requires k < |list|
    ensures Payloads(list[..k + 1]) == Payloads(list[..k]) + [list[k].data]
  {
    assert list[..k + 1][..k] == list[..k];
  }

  class Channel {
    var incomingReliableSequenceNumber: u16
    var incomingReliableCommands: seq<Incoming>
    var dispatchedCommands: seq<seq<byte>>

    constructor ()
      ensures Value() == Receiver(0, [], [])
    {
      incomingReliableSequenceNumber, incomingReliableCommands, dispatchedCommands := 0, [], [];
    }

    function Value(): Receiver
      reads this
    {
      Receiver(incomingReliableSequenceNumber, incomingReliableCommands, dispatchedCommands)
    }

    /** The search from the end of the list. */
    method FindPlace(number: u16) returns (p: Place)
      ensures p == PlaceOf(incomingReliableCommands, |incomingReliableCommands|, number, incomingReliableSequenceNumber)
    {
      var k: nat := |incomingReliableCommands|;
      while k > 0
        invariant k <= |incomingReliableCommands|
        invariant PlaceOf(incomingReliableCommands, |incomingReliableCommands|, number, incomingReliableSequenceNumber)
               == PlaceOf(incomingReliableCommands, k, number, incomingReliableSequenceNumber)
      {
        var other := incomingReliableCommands[k - 1].number;
        if number >= incomingReliableSequenceNumber {
          if other < incomingReliableSequenceNumber {
            k := k - 1;
            continue;
          }
        } else if other >= incomingReliableSequenceNumber {
          break;
        }
        if other <= number {
          if other < number {
            break;
          }
          return Existing(k - 1);
        }
        k := k - 1;
      }
      return Before(k);
    }

    /** The complete commands next in sequence leave the list together. */
    method DispatchIncomingReliableCommands()
      modifies this
      ensures Value() == Dispatch(old(Value()))
    {
      hide Dispatch, Payloads, HeadReady;
      ghost var was := Value();
      var k := 0;
      NothingPassed(was);
      while k < |incomingReliableCommands|
        invariant k <= |incomingReliableCommands|
        invariant incomingReliableCommands == was.incoming && dispatchedCommands == was.dispatched
        invariant Dispatch(was) == Dispatch(Passed(was, k, incomingReliableSequenceNumber))
      {
        var c := incomingReliableCommands[k];
        PassedHead(was, k, incomingReliableSequenceNumber);
        if c.remaining > 0 || c.number != U16(incomingReliableSequenceNumber + 1) {
          break;
        }
        PassedNext(was, k, incomingReliableSequenceNumber);
        incomingReliableSequenceNumber := c.number;
        if c.fragmentCount > 0 {
          incomingReliableSequenceNumber := U16(incomingReliableSequenceNumber + c.fragmentCount - 1);
        }
        k := k + 1;
      }
      PassedHead(was, k, incomingReliableSequenceNumber);
      dispatchedCommands := dispatchedCommands + Payloads(incomingReliableCommands[..k]);
      incomingReliableCommands := incomingReliableCommands[k..];
      assert Value() == Passed(was, k, incomingReliableSequenceNumber);
    }

    /** Queues a command unless it is out of the windows, the last one dispatched or there
        already; then dispatches what it can. */
    method QueueIncomingCommand(number: u16, data: seq<byte>, fragmentCount: nat, room: bool) returns (q: Queued)
      modifies this
      ensures var r, list, base := old(Value()), old(incomingReliableCommands), old(incomingReliableSequenceNumber);
              var p := PlaceOf(list, |list|, number, base);
              if !Accepted(number, r.number) || number == r.number || p.Existing? then
                Value() == r && q == if fragmentCount > 0 then Refused else Discarded
              else if !room || fragmentCount > MAXIMUM_FRAGMENT_COUNT then Value() == r && q == Refused
              else
                && q == Stored(p.i)
                && var c := Incoming(number, fragmentCount, fragmentCount, seq(fragmentCount, _ => false), data);
                   Value() == Dispatch(r.(incoming := Insert(r.incoming, p.i, c)))
    {
      var window, current := number / WINDOW_SIZE, incomingReliableSequenceNumber / WINDOW_SIZE;
      if number < incomingReliableSequenceNumber {
        window := window + WINDOWS;
      }
      if window < current || window >= current + FREE_WINDOWS - 1 || number == incomingReliableSequenceNumber {
        return if fragmentCount > 0 then Refused else Discarded;
      }
      var place := FindPlace(number);
      if place.Existing? {
        return if fragmentCount > 0 then Refused else Discarded;
      }
      if !room || fragmentCount > MAXIMUM_FRAGMENT_COUNT {
        return Refused;
      }
      var command := Incoming(number, fragmentCount, fragmentCount, seq(fragmentCount, _ => false), data);
      incomingReliableCommands := Insert(incomingReliableCommands, place.i, command);
      DispatchIncomingReliableCommands();
      return Stored(place.i);
    }

    method HandleSendReliable(number: u16, data: seq<byte>, maximumPacketSize: nat, room: bool) returns (ok: bool)
      modifies this
      ensures (Value(), ok) == HandleReliable(old(Value()), number, data, maximumPacketSize, room)
    {
      if |data| > maximumPacketSize {
        return false;
      }
      assert seq(0, _ => false) == [];
      var q := QueueIncomingCommand(number, data, 0, room);
      return !q.Refused?;
    }

    /** A fragment finds its packet's entry or opens one, is copied in if it is new, and
        the last one missing lets the packet be dispatched. Between calls the head of the
        list is never ready: nothing is left that could be dispatched. */
    method HandleSendFragment(f: Fragment, maximumPacketSize: nat, room: bool, blank: seq<byte>) returns (ok: bool)
      requires |blank| == f.total
      requires !HeadReady(Value())
      modifies this
      ensures (Value(), ok) == HandleFragment(old(Value()), f, maximumPacketSize, room, blank)
    {
      hide Dispatch, PlaceOf, AddFragment, HeadReady;
      ghost var was := Value();
      if |f.bytes| == 0 || |f.bytes| > maximumPacketSize {
        return false;
      }
      var window, current := f.start / WINDOW_SIZE, incomingReliableSequenceNumber / WINDOW_SIZE;
      if f.start < incomingReliableSequenceNumber {
        window := window + WINDOWS;
      }
      if window < current || window >= current + FREE_WINDOWS - 1 {
        return true;
      }
      if f.count > MAXIMUM_FRAGMENT_COUNT || f.index >= f.count || f.total > maximumPacketSize || f.total < f.count ||
         f.offset >= f.total || |f.bytes| > f.total - f.offset {
        return false;
      }
      var place := FindPlace(f.start);
      var at := place.i;
      if place.Existing? {
        if !Matches(incomingReliableCommands[at], f) {
          return false;
        }
      } else {
        var q := QueueIncomingCommand(f.start, blank, f.count, room);
        if !q.Stored? {
          return false;
        }
        UnreadyInsert(was, at, Opened(f, blank));
      }
      assert Value() == if place.Existing? then was else was.(incoming := Insert(was.incoming, at, Opened(f, blank)));
      TakeFragment(at, f);
      assert !place.Existing? ==>
        Insert(was.incoming, at, Opened(f, blank))[at := AddFragment(Opened(f, blank), f)]
          == Insert(was.incoming, at, AddFragment(Opened(f, blank), f));
      return true;
    }

    /** Marks and copies a fragment that is new; the last one lets the packet go. */
    method TakeFragment(at: nat, f: Fragment)
      requires at < |incomingReliableCommands| && !HeadReady(Value())
      requires f.index < |incomingReliableCommands[at].got|
      requires f.offset + |f.bytes| <= |incomingReliableCommands[at].data|
      modifies this
      ensures var r := old(Value());
              Value() == Dispatch(r.(incoming := r.incoming[at := AddFragment(r.incoming[at], f)]))
    {
      hide Dispatch;
      ghost var was := Value();
      if incomingReliableCommands[at].got[f.index] {
        assert incomingReliableCommands[at := incomingReliableCommands[at]] == incomingReliableCommands;
        UnreadyDispatch(was);
        return;
      }
      incomingReliableCommands := incomingReliableCommands[at := AddFragment(incomingReliableCommands[at], f)];
      if incomingReliableCommands[at].remaining <= 0 {
        DispatchIncomingReliableCommands();
      } else {
        UnreadyDispatch(Value());
      }
    }

    /** Whether an acknowledgement is queued for a command. */
    method QueueAcknowledgement(number: u16) returns (queued: bool)
      ensures queued <==> !Unacknowledged(number, incomingReliableSequenceNumber)
    {
      var window, current := number / WINDOW_SIZE, incomingReliableSequenceNumber / WINDOW_SIZE;
      if number < incomingReliableSequenceNumber {
        window := window + WINDOWS;
      }
      if window >= current + FREE_WINDOWS - 1 && window <= current + FREE_WINDOWS {
        return false;
      }
      return true;
    }
  }

  lemma UnreadyDispatch(r: Receiver)
    requires !HeadReady(r)
    ensures Dispatch(r) == r
  {
  }

  /** An entry that lacks fragments does not make the head of the list ready. */
  lemma UnreadyInsert(r: Receiver, at: nat, c: Incoming)
    requires !HeadReady(r) && at <= |r.incoming| && c.remaining > 0
    ensures Dispatch(r.(incoming := Insert(r.incoming, at, c))) == r.(incoming := Insert(r.incoming, at, c))
    ensures !HeadReady(r.(incoming := Insert(r.incoming, at, c)))
  {
    UnreadyDispatch(r.(incoming := Insert(r.incoming, at, c)));
  }
}
