/**
 Unreliable packets of a channel on the receiving side: the list where sequenced packets
 wait for the reliable command they follow and fragmented ones for their fragments, its
 sorted insert, and the pass that dispatches and drops.
 */
module UnreliableQueue {
  import opened Words
  import opened ReliableWindows

  /** A queued command. `number` is that of the reliable command it follows, and
      `unreliable` counts the packets since; an unsequenced command has neither, and zero
      stands in both. `n` is the unbounded number that `number` stands for, and `packet`
      the payload; no decision reads these two. */
  datatype Entry = Entry(sequenced: bool, number: u16, unreliable: u16, fragmentCount: nat, remaining: int,
    got: seq<bool>, packet: nat, n: nat)

  /** `number` and `unreliable` are the last reliable number and the last unreliable one
      after it that were dispatched. */
  datatype Queue = Queue(number: u16, unreliable: u16, list: seq<Entry>, dispatched: seq<Entry>)

  datatype Place = Before(i: nat) | Existing(i: nat)

  /** The search from the end of the list; `k` entries are left to look at. */
  function PlaceOf(list: seq<Entry>, k: nat, number: u16, unreliable: u16, base: u16): (p: Place)
    requires k <= |list|
    ensures p.i <= k && (p.Existing? ==> p.i < k)
  {
    if k == 0 then Before(0)
    else
      var e := list[k - 1];
      if number >= base && e.number < base then PlaceOf(list, k - 1, number, unreliable, base)
      else if number < base && e.number >= base then Before(k)
      else if e.number < number then Before(k)
      else if e.number > number then PlaceOf(list, k - 1, number, unreliable, base)
      else if e.unreliable < unreliable then Before(k)
      else if e.unreliable == unreliable then Existing(k - 1)
      else PlaceOf(list, k - 1, number, unreliable, base)
  }

  /** How a pass over the list has come out: entries `moved` to the dispatched ones,
      entries before `drop` gone otherwise. */
  datatype Scan = Scan(start: nat, drop: nat, unreliable: u16, moved: seq<Entry>)

  /** The pass from entry `i` on. Entries from `start` to `i` wait to be moved together. */
  function Pass(list: seq<Entry>, base: u16, i: nat, s: Scan): (r: Scan)
    requires s.start <= i <= |list| && s.drop <= i
    ensures r.drop <= |list|
    decreases |list| - i
  {
    var pending := list[s.start..i];
    if i == |list| then Finish(list, i, s)
    else if !list[i].sequenced then Pass(list, base, i + 1, s)
    else if list[i].number == base then
      if list[i].remaining <= 0 then Pass(list, base, i + 1, s.(unreliable := list[i].unreliable))
      else if s.start != i then Pass(list, base, i + 1, s.(moved := s.moved + pending, drop := i, start := i + 1))
      else if s.drop != i then Pass(list, base, i + 1, s.(drop := i - 1, start := i + 1))
      else Pass(list, base, i + 1, s.(start := i + 1))
    else if Accepted(list[i].number, base) then Finish(list, i, s)
    else Pass(list, base, i + 1, s.(moved := s.moved + pending, drop := i + 1, start := i + 1))
  }

  function Finish(list: seq<Entry>, i: nat, s: Scan): (r: Scan)
    requires s.start <= i <= |list| && s.drop <= i
    ensures r.drop <= |list|
  {
    if s.start != i then s.(moved := s.moved + list[s.start..i], drop := i, start := i) else s
  }

  const NONE: int := -1

  /** Dispatches what can be and drops what was overtaken, but never drops the entry at
      index `keep`, the one just queued. */
  function Dispatch(q: Queue, keep: int): Queue
    requires keep < |q.list|
  {
    var s := Pass(q.list, q.number, 0, Scan(0, 0, q.unreliable, []));
    q.(unreliable := s.unreliable, dispatched := q.dispatched + s.moved, list := Remaining(q.list, s, keep))
  }

  predicate Spared(list: seq<Entry>, s: Scan, keep: int)
    requires keep < |list|
  {
    0 <= keep < s.drop && list[keep] !in s.moved
  }

  function Remaining(list: seq<Entry>, s: Scan, keep: int): seq<Entry>
    requires s.drop <= |list| && keep < |list|
  {
    (if Spared(list, s, keep) then [list[keep]] else []) + list[s.drop..]
  }

  function Insert(list: seq<Entry>, i: nat, e: Entry): seq<Entry>
    requires i <= |list|
  {
    list[..i] + [e] + list[i..]
  }

  /** The tests before a sequenced command is queued. */
  predicate Wanted(q: Queue, number: u16, unreliable: u16) {
    Accepted(number, q.number) && !(number == q.number && unreliable <= q.unreliable)
  }

  /** A whole unreliable packet arrives. */
  function HandleUnreliable(q: Queue, e: Entry, room: bool): Queue {
    if !Wanted(q, e.number, e.unreliable) then q
    else
      match PlaceOf(q.list, |q.list|, e.number, e.unreliable, q.number)
      case Existing(_) => q
      case Before(i) => if room then Dispatch(q.(list := Insert(q.list, i, e)), i) else q
  }

  /** An unsequenced packet that passed its own window is queued in front. */
  function HandleUnsequenced(q: Queue, e: Entry, room: bool): Queue {
    if room then Dispatch(q.(list := Insert(q.list, 0, e)), 0) else q
  }

  function Mark(e: Entry, index: nat): Entry
    requires index < |e.got|
  {
    if e.got[index] then e else e.(remaining := e.remaining - 1, got := e.got[index := true])
  }

  /** A fragment is marked in the entry at `at`; the last one missing has the list dispatched. */
  function MarkAt(q: Queue, at: nat, index: nat): Queue
    requires at < |q.list| && index < |q.list[at].got|
  {
    var r := q.(list := q.list[at := Mark(q.list[at], index)]);
    if !q.list[at].got[index] && r.list[at].remaining <= 0 then Dispatch(r, NONE) else r
  }

  /** Where an entry just queued at `i` is after the dispatch that follows. */
  function KeptAt(q: Queue, i: nat): int
    requires i < |q.list|
  {
    var s := Pass(q.list, q.number, 0, Scan(0, 0, q.unreliable, []));
    if i < s.drop then 0 else i - s.drop
  }

  /** A fragment of an unreliable packet arrives: `e` is the packet's entry as the first
      fragment opens it. */
  function HandleFragment(q: Queue, e: Entry, index: nat, room: bool): Queue
    requires index < e.fragmentCount == |e.got|
  {
    if !Wanted(q, e.number, e.unreliable) then q
    else
      match PlaceOf(q.list, |q.list|, e.number, e.unreliable, q.number)
      case Existing(i) =>
        if q.list[i].fragmentCount != e.fragmentCount || |q.list[i].got| != e.fragmentCount then q
        else MarkAt(q, i, index)
      case Before(i) =>
        if !room then q
        else
          var p := q.(list := Insert(q.list, i, e));
          var d, at := Dispatch(p, i), KeptAt(p, i);
          if 0 <= at < |d.list| && d.list[at] == e then MarkAt(d, at, index) else d
  }

  /** The channel's reliable part has dispatched up to `number`. */
  function Advance(q: Queue, number: u16): Queue {
    Dispatch(q.(number := number, unreliable := 0), NONE)
  }
}
