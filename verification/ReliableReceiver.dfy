/**
 The receiving end of a reliable channel: the sorted list of commands that arrived
 ahead of their turn, reassembly of fragmented packets, dispatch in sequence and the
 choice of what to acknowledge.
 */
module ReliableReceiver {
  import opened Words
  import opened ReliableWindows

  const MAXIMUM_FRAGMENT_COUNT := 1024 * 1024

  /** A stored command; `fragmentCount` is 0 for a packet that came whole. */
  datatype Incoming = Incoming(number: u16, fragmentCount: nat, remaining: int, got: seq<bool>, data: seq<byte>)

  datatype Receiver = Receiver(number: u16, incoming: seq<Incoming>, dispatched: seq<seq<byte>>)

  /** A fragment as the wire carries it. */
  datatype Fragment = Fragment(number: u16, start: u16, index: nat, count: nat, offset: nat, total: nat,
                               bytes: seq<byte>)

  /** Where a command with a given number belongs in the list, or that it is there. */
  datatype Place = Before(i: nat) | Existing(i: nat)

  /** The search from the end of the list for the place of `number`; `k` commands are
      left to look at. */
  function PlaceOf(list: seq<Incoming>, k: nat, number: u16, base: u16): (p: Place)
    requires k <= |list|
    ensures p.i <= k && (p.Existing? ==> p.i < k)
  {
    if k == 0 then Before(0)
    else
      var e := list[k - 1].number;
      if number >= base && e < base then PlaceOf(list, k - 1, number, base)
      else if number < base && e >= base then Before(k)
      else if e < number then Before(k)
      else if e == number then Existing(k - 1)
      else PlaceOf(list, k - 1, number, base)
  }

  function Insert(list: seq<Incoming>, i: nat, c: Incoming): seq<Incoming>
    requires i <= |list|
  {
    list[..i] + [c] + list[i..]
  }

  /** The next command in sequence is there and complete. */
  predicate HeadReady(r: Receiver) {
    |r.incoming| > 0 && r.incoming[0].remaining <= 0 && r.incoming[0].number == U16(r.number + 1)
  }

  /** The last number a stored command stands for. */
  function LastNumber(c: Incoming): u16 {
    if c.fragmentCount > 0 then U16(c.number + c.fragmentCount - 1) else c.number
  }

  function Dispatch(r: Receiver): Receiver
    decreases |r.incoming|
  {
    if HeadReady(r) then
      Dispatch(Receiver(LastNumber(r.incoming[0]), r.incoming[1..], r.dispatched + [r.incoming[0].data]))
    else r
  }

  /** A whole reliable packet arrives. `room` tells whether the peer may hold more
      undelivered data; the flag returned, whether the command was handled without error. */
  function HandleReliable(r: Receiver, number: u16, data: seq<byte>, maximumPacketSize: nat, room: bool)
    : (Receiver, bool)
  {
    if |data| > maximumPacketSize then (r, false)
    else if !Accepted(number, r.number) || number == r.number then (r, true)
    else
      match PlaceOf(r.incoming, |r.incoming|, number, r.number)
      case Existing(_) => (r, true)
      case Before(i) =>
        if !room then (r, false)
        else (Dispatch(r.(incoming := Insert(r.incoming, i, Incoming(number, 0, 0, [], data)))), true)
  }

  /** The checks a fragment must pass before anything is stored. */
  predicate Sound(f: Fragment, maximumPacketSize: nat) {
    && 0 < |f.bytes| <= maximumPacketSize
    && f.count <= MAXIMUM_FRAGMENT_COUNT
    && f.index < f.count <= f.total <= maximumPacketSize
    && f.offset < f.total
    && |f.bytes| <= f.total - f.offset
  }

  function Write(data: seq<byte>, offset: nat, bytes: seq<byte>): (r: seq<byte>)
    requires offset + |bytes| <= |data|
    ensures |r| == |data|
  {
    data[..offset] + bytes + data[offset + |bytes|..]
  }

  predicate Matches(c: Incoming, f: Fragment) {
    c.fragmentCount == f.count == |c.got| && |c.data| == f.total
  }

  function AddFragment(c: Incoming, f: Fragment): Incoming
    requires f.index < |c.got| && f.offset + |f.bytes| <= |c.data|
  {
    if c.got[f.index] then c
    else c.(remaining := c.remaining - 1, got := c.got[f.index := true], data := Write(c.data, f.offset, f.bytes))
  }

  /** A packet's first fragment to arrive opens an entry for the whole packet, whose
      memory `blank` is not initialised. */
  function Opened(f: Fragment, blank: seq<byte>): Incoming {
    Incoming(f.start, f.count, f.count, seq(f.count, _ => false), blank)
  }

  /** A fragment arrives. */
  function HandleFragment(r: Receiver, f: Fragment, maximumPacketSize: nat, room: bool, blank: seq<byte>)
    : (Receiver, bool)
    requires |blank| == f.total
  {
    if !(0 < |f.bytes| <= maximumPacketSize) then (r, false)
    else if !Accepted(f.start, r.number) then (r, true)
    else if !Sound(f, maximumPacketSize) then (r, false)
    else
      match PlaceOf(r.incoming, |r.incoming|, f.start, r.number)
      case Existing(i) =>
        if !Matches(r.incoming[i], f) then (r, false)
        else (Dispatch(r.(incoming := r.incoming[i := AddFragment(r.incoming[i], f)])), true)
      case Before(i) =>
        if f.start == r.number || !room then (r, false)
        else (Dispatch(r.(incoming := Insert(r.incoming, i, AddFragment(Opened(f, blank), f)))), true)
  }

  // ----- what is refused

  function PlaceFor(r: Receiver, number: u16): Place {
    PlaceOf(r.incoming, |r.incoming|, number, r.number)
  }

  /** A packet is refused, and then nothing is stored, exactly if it is over the maximum size,
      or new while there is no room. */
  lemma ReliableRefusedExactly(r: Receiver, number: u16, data: seq<byte>, maximumPacketSize: nat, room: bool)
    ensures var (q, ok) := HandleReliable(r, number, data, maximumPacketSize, room);
            && (!ok ==> q == r)
            && (!ok <==> || |data| > maximumPacketSize
                         || (!room && Accepted(number, r.number) && number != r.number && PlaceFor(r, number).Before?))
  {
  }

  /** It says something that no fragment of a packet of at most the maximum size can. */
  predicate Absurd(f: Fragment, maximumPacketSize: nat) {
    || f.count > 1048576 || f.count <= f.index || f.total < f.count || maximumPacketSize < f.total
    || f.total <= f.offset || f.total < f.offset + |f.bytes|
  }

  /** What is stored under its number is not its packet, or its packet was the last
      dispatched. */
  predicate Clashes(r: Receiver, f: Fragment) {
    match PlaceFor(r, f.start)
    case Before(_) => f.start == r.number
    case Existing(i) =>
      r.incoming[i].fragmentCount != f.count || |r.incoming[i].got| != f.count || |r.incoming[i].data| != f.total
  }

  /** A fragment is refused, and then nothing is stored, exactly if it is empty or over the
      maximum size or, where its number is acceptable, it is absurd, clashes with what is
      stored or dispatched, or would be the first of its packet while there is no room. */
  lemma FragmentRefusedExactly(r: Receiver, f: Fragment, maximumPacketSize: nat, room: bool, blank: seq<byte>)
    requires |blank| == f.total
    ensures var (q, ok) := HandleFragment(r, f, maximumPacketSize, room, blank);
            && (!ok ==> q == r)
            && (!ok <==> || f.bytes == [] || |f.bytes| > maximumPacketSize
                         || (Accepted(f.start, r.number)
                             && (Absurd(f, maximumPacketSize) || Clashes(r, f)
                                 || (!room && PlaceFor(r, f.start).Before?))))
  {
    hide Dispatch, Accepted, PlaceOf;
  }
}
