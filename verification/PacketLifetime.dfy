/**
 How long a packet lives: its reference count is the number of queue entries that hold
 it, and it is destroyed when the last of them goes, once.
 */
module PacketLifetime {

  class Packet {
    var referenceCount: int
    var destroyed: bool

    constructor ()
      ensures referenceCount == 0 && !destroyed
    {
      referenceCount, destroyed := 0, false;
    }

    /** Frees the packet; it must not be freed again. */
    method Destroy()
      requires !destroyed
      modifies this
      ensures destroyed && referenceCount == old(referenceCount)
    {
      destroyed := true;
    }
  }

  type Queue = seq<Packet>

  /** How many entries of all the queues hold a packet. */
  function Entries(queues: seq<Queue>, p: Packet): nat {
    if queues == [] then 0 else Entries(queues[..|queues| - 1], p) + multiset(queues[|queues| - 1])[p]
  }

  lemma {:induction false} EntriesUpdate(queues: seq<Queue>, i: nat, q: Queue, p: Packet)
    requires i < |queues|
    ensures Entries(queues[i := q], p) == Entries(queues, p) - multiset(queues[i])[p] + multiset(q)[p]
    ensures multiset(queues[i])[p] <= Entries(queues, p)
  {
    var n := |queues| - 1;
    if i < n {
      assert queues[i := q][..n] == queues[..n][i := q];
      EntriesUpdate(queues[..n], i, q, p);
    } else {
      assert queues[i := q][..n] == queues[..n];
    }
  }

  function Without(q: Queue, k: nat): Queue
    requires k < |q|
  {
    q[..k] + q[k + 1..]
  }

  function With(q: Queue, k: nat, p: Packet): Queue
    requires k <= |q|
  {
    q[..k] + [p] + q[k..]
  }

  lemma WithoutCounts(q: Queue, k: nat, p: Packet)
    requires k < |q|
    ensures multiset(q)[p] == multiset(Without(q, k))[p] + if p == q[k] then 1 else 0
  {
    assert q == q[..k] + [q[k]] + q[k + 1..];
  }

  lemma WithCounts(q: Queue, k: nat, x: Packet, p: Packet)
    requires k <= |q|
    ensures multiset(With(q, k, x))[p] == multiset(q)[p] + if p == x then 1 else 0
  {
    assert q == q[..k] + q[k..];
  }

  /** Every packet held is one of `packets`. */
  ghost predicate Known(queues: seq<Queue>, packets: set<Packet>) {
    forall i :: 0 <= i < |queues| ==> AllIn(queues[i], packets)
  }

  ghost predicate AllIn(q: Queue, packets: set<Packet>) {
    forall k :: 0 <= k < |q| ==> q[k] in packets
  }

  lemma KnownUpdate(queues: seq<Queue>, i: nat, q: Queue, packets: set<Packet>)
    requires Known(queues, packets) && i < |queues| && AllIn(q, packets)
    ensures Known(queues[i := q], packets)
  {
  }

  lemma KnownOne(queues: seq<Queue>, i: nat, packets: set<Packet>)
    requires Known(queues, packets) && i < |queues|
    ensures AllIn(queues[i], packets)
  {
  }

  lemma EntryIn(q: Queue, k: nat, packets: set<Packet>)
    requires AllIn(q, packets) && k < |q|
    ensures q[k] in packets
  {
  }

  lemma AfterOne(first: Queue, k: nat, m: nat)
    requires k + m < |first|
    ensures Without(first[..k] + first[k + m..], k) == first[..k] + first[k + m + 1..]
    ensures first[k..k + m + 1] == first[k..k + m] + [first[k + m]]
  {
  }

  lemma WithoutLength(q: Queue, k: nat)
    requires k < |q|
    ensures |Without(q, k)| == |q| - 1
  {
  }

  lemma WithoutIn(q: Queue, k: nat, packets: set<Packet>)
    requires AllIn(q, packets) && k < |q|
    ensures AllIn(Without(q, k), packets) && q[k] in packets
  {
  }

  lemma WithIn(q: Queue, k: nat, p: Packet, packets: set<Packet>)
    requires AllIn(q, packets) && k <= |q| && p in packets
    ensures AllIn(With(q, k, p), packets)
  {
  }

  function Copies(p: Packet, n: nat): Queue {
    if n == 0 then [] else Copies(p, n - 1) + [p]
  }

  lemma {:induction false} CopiesCount(p: Packet, n: nat, x: Packet)
    ensures multiset(Copies(p, n))[x] == if x == p then n else 0
    ensures forall k :: 0 <= k < |Copies(p, n)| ==> Copies(p, n)[k] == p
  {
    if n > 0 {
      CopiesCount(p, n - 1, x);
    }
  }

  function Sum(list: seq<nat>): nat {
    if list == [] then 0 else Sum(list[..|list| - 1]) + list[|list| - 1]
  }

  /** Every queue of every peer, by number: outgoing, sent, incoming and dispatched. */
  class Host {
    var queues: seq<Queue>
    ghost var packets: set<Packet>

    /** A packet's count is right, and a destroyed packet is held nowhere. */
    ghost predicate Valid()
      reads this, packets
    {
      && Known(queues, packets)
      && (forall p :: p in packets ==> p.referenceCount == Entries(queues, p))
      && (forall p :: p in packets && p.destroyed ==> p.referenceCount == 0)
    }

    constructor (count: nat)
      ensures Valid() && queues == seq(count, _ => []) && packets == {}
    {
      queues := seq(count, _ => []);
      packets := {};
      new;
      assert Known(queues, packets);
    }

    method Create() returns (p: Packet)
      requires Valid()
      modifies this`packets
      ensures Valid() && fresh(p) && packets == old(packets) + {p} && !p.destroyed && queues == old(queues)
    {
      p := new Packet();
      assert Known(queues, packets + {p});
      forall i | 0 <= i < |queues| ensures p !in queues[i] {
        assert AllIn(queues[i], packets);
      }
      packets := packets + {p};
      NotHeld(queues, p);
    }

    /** Sending queues one entry for each fragment, or one for the whole. */
    method Send(p: Packet, i: nat, fragments: nat)
      requires Valid() && p in packets && !p.destroyed && i < |queues|
      modifies this`queues, p
      ensures Valid() && !p.destroyed
      ensures queues == old(queues)[i := old(queues[i]) + Copies(p, fragments)]
      ensures Entries(queues, p) == old(Entries(queues, p)) + fragments
    {
      var q := queues[i] + Copies(p, fragments);
      forall x | x in packets
        ensures Entries(queues[i := q], x) == Entries(queues, x) + if x == p then fragments else 0
      {
        EntriesUpdate(queues, i, q, x);
        CopiesCount(p, fragments, x);
      }
      CopiesCount(p, fragments, p);
      assert AllIn(queues[i], packets);
      KnownUpdate(queues, i, q, packets);
      p.referenceCount := p.referenceCount + fragments;
      queues := queues[i := q];
    }

    /** An entry moves from one queue to another, as when a command is sent or times out. */
    method Shift(i: nat, k: nat, j: nat, l: nat)
      requires Valid() && i < |queues| && j < |queues| && k < |queues[i]|
      requires l <= if i == j then |queues[j]| - 1 else |queues[j]|
      modifies this`queues
      ensures Valid() && var left := old(queues)[i := Without(old(queues[i]), k)];
                         queues == left[j := With(left[j], l, old(queues[i][k]))]
    {
      hide Entries, With, Without, Known, AllIn;
      var p := queues[i][k];
      KnownOne(queues, i, packets);
      WithoutIn(queues[i], k, packets);
      KnownUpdate(queues, i, Without(queues[i], k), packets);
      WithoutLength(queues[i], k);
      var left := queues[i := Without(queues[i], k)];
      KnownOne(left, j, packets);
      WithIn(left[j], l, p, packets);
      KnownUpdate(left, j, With(left[j], l, p), packets);
      var all := left[j := With(left[j], l, p)];
      forall x | x in packets ensures Entries(all, x) == Entries(queues, x) {
        EntriesUpdate(queues, i, Without(queues[i], k), x);
        WithoutCounts(queues[i], k, x);
        EntriesUpdate(left, j, With(left[j], l, p), x);
        WithCounts(left[j], l, p, x);
      }
      queues := all;
    }

    /** An entry goes: acknowledged, dropped or reset. The last one takes the packet with it. */
    method Release(i: nat, k: nat)
      requires Valid() && i < |queues| && k < |queues[i]|
      modifies this`queues, queues[i][k]
      ensures Valid() && queues == old(queues)[i := Without(old(queues[i]), k)]
      ensures !old(queues[i][k].destroyed)
      ensures old(queues[i][k]).destroyed <==> Entries(queues, old(queues[i][k])) == 0
    {
      hide Known, AllIn;
      var p, q := queues[i][k], Without(queues[i], k);
      KnownOne(queues, i, packets);
      WithoutIn(queues[i], k, packets);
      KnownUpdate(queues, i, q, packets);
      forall x | x in packets
        ensures Entries(queues[i := q], x) == Entries(queues, x) - (if x == p then 1 else 0)
      {
        EntriesUpdate(queues, i, q, x);
        WithoutCounts(queues[i], k, x);
      }
      assert Entries(queues, p) >= 1;
      p.referenceCount := p.referenceCount - 1;
      queues := queues[i := q];
      if p.referenceCount == 0 {
        p.Destroy();
      }
    }

    /** An entry goes, and no other packet is touched. */
    method ReleaseAlone(i: nat, k: nat)
      requires Valid() && i < |queues| && k < |queues[i]|
      modifies this`queues, queues[i][k]
      ensures Valid() && queues == old(queues)[i := Without(old(queues[i]), k)]
      ensures old(queues[i][k]) in packets && !old(queues[i][k].destroyed)
      ensures old(queues[i][k]).destroyed <==> Entries(queues, old(queues[i][k])) == 0
      ensures forall x :: x in packets && x != old(queues[i][k]) ==> Entries(queues, x) == old(Entries(queues, x))
    {
      hide Known, AllIn, Entries;
      ghost var p, q := queues[i][k], Without(queues[i], k);
      KnownOne(queues, i, packets);
      WithoutIn(queues[i], k, packets);
      forall x | x in packets && x != p ensures Entries(queues[i := q], x) == Entries(queues, x) {
        EntriesUpdate(queues, i, q, x);
        WithoutCounts(queues[i], k, x);
      }
      Release(i, k);
    }

    /** The `n` entries from `k` on go, as when the throttle drops the fragments of a packet:
        their packets are destroyed unless other entries hold them. */
    method ReleaseRun(i: nat, k: nat, n: nat)
      requires Valid() && i < |queues| && k + n <= |queues[i]|
      modifies this`queues, packets
      ensures Valid() && queues == old(queues)[i := old(queues[i][..k]) + old(queues[i][k + n..])]
      ensures forall p :: p in packets ==>
                (p.destroyed <==> old(p.destroyed) || (p in old(queues[i][k..k + n]) && Entries(queues, p) == 0))
    {
      hide Known, AllIn, Entries, Without;
      ghost var was, first := queues, queues[i];
      var m := 0;
      assert first == first[..k] + first[k..] && queues == was[i := first];
      while m < n
        invariant Valid() && m <= n && |queues| == |was| && queues == was[i := first[..k] + first[k + m..]]
        invariant forall p :: p in packets ==>
                    (p.destroyed <==> old(p.destroyed) || (p in first[k..k + m] && Entries(queues, p) == 0))
      {
        assert queues[i][k] == first[k + m];
        AfterOne(first, k, m);
        KnownOne(queues, i, packets);
        EntryIn(queues[i], k, packets);
        ReleaseAlone(i, k);
        assert queues == was[i := first[..k] + first[k + m + 1..]];
        m := m + 1;
      }
    }

    /** A queue is emptied: its packets are destroyed unless other queues hold them. */
    method ResetQueue(i: nat)
      requires Valid() && i < |queues|
      modifies this`queues, packets
      ensures Valid() && queues == old(queues)[i := []]
      ensures forall p :: p in packets ==>
                (p.destroyed <==> old(p.destroyed) || (p in old(queues[i]) && Entries(queues, p) == 0))
    {
      hide Known, AllIn, Entries;
      ghost var q := queues[i];
      assert q[0..0 + |q|] == q && q[..0] + q[0 + |q|..] == [];
      ReleaseRun(i, 0, |queues[i]|);
    }

    /** The application takes the first dispatched packet and owns it from then on. */
    method Receive(i: nat) returns (p: Packet)
      requires Valid() && i < |queues| && |queues[i]| > 0
      modifies this`queues, queues[i][0]
      ensures p == old(queues[i][0]) && !old(p.destroyed) && !p.destroyed
      ensures Valid() && queues == old(queues)[i := old(queues[i][1..])]
    {
      hide Known, AllIn;
      p := queues[i][0];
      var q := Without(queues[i], 0);
      KnownOne(queues, i, packets);
      WithoutIn(queues[i], 0, packets);
      KnownUpdate(queues, i, q, packets);
      forall x | x in packets
        ensures Entries(queues[i := q], x) == Entries(queues, x) - (if x == p then 1 else 0)
      {
        EntriesUpdate(queues, i, q, x);
        WithoutCounts(queues[i], 0, x);
      }
      assert q == queues[i][1..] && Entries(queues, p) >= 1;
      p.referenceCount := p.referenceCount - 1;
      queues := queues[i := q];
    }

    /** A packet is sent to every connected peer, in as many entries as `fragments` says;
        one that goes to nobody is destroyed. */
    method Broadcast(p: Packet, fragments: seq<nat>)
      requires Valid() && p in packets && !p.destroyed && |fragments| <= |queues|
      modifies this`queues, p
      ensures Valid() && (p.destroyed <==> Entries(queues, p) == 0)
      ensures Entries(queues, p) == old(Entries(queues, p)) + Sum(fragments)
      ensures |queues| == |old(queues)| && forall i :: 0 <= i < |queues| ==>
                queues[i] == old(queues[i]) + if i < |fragments| then Copies(p, fragments[i]) else []
    {
      hide Known, AllIn, Entries, Copies;
      var i := 0;
      while i < |fragments|
        invariant i <= |fragments| <= |queues| == |old(queues)| && Valid() && !p.destroyed
        invariant Entries(queues, p) == old(Entries(queues, p)) + Sum(fragments[..i])
        invariant forall j :: 0 <= j < |queues| ==>
                    queues[j] == old(queues[j]) + if j < i then Copies(p, fragments[j]) else []
      {
        assert fragments[..i + 1][..i] == fragments[..i];
        assert queues[i] == old(queues[i]);
        Send(p, i, fragments[i]);
        i := i + 1;
      }
      assert fragments[..i] == fragments;
      if p.referenceCount == 0 {
        p.Destroy();
      }
    }
  }

  lemma {:induction false} NotHeld(queues: seq<Queue>, p: Packet)
    requires forall i :: 0 <= i < |queues| ==> p !in queues[i]
    ensures Entries(queues, p) == 0
  {
    if queues != [] {
      NotHeld(queues[..|queues| - 1], p);
    }
  }
}
