/**
 The circular doubly linked list, with a sentinel in the ring, that holds every queue.
 A ring is given as the sequence of its nodes, the sentinel first; the operations on
 pointers are proved to be insertion, deletion and cut-and-paste on that sequence.
 */
module LinkedList {
  class Node {
    var next: Node
    var previous: Node

    /** A cleared list: a sentinel alone. */
    constructor ()
      ensures Linked([this])
    {
      next := this;
      previous := this;
    }
  }

  ghost predicate Distinct(ring: seq<Node>) {
    forall i, j :: 0 <= i < j < |ring| ==> ring[i] != ring[j]
  }

  ghost predicate Joined(a: Node, b: Node)
    reads a, b
  {
    a.next == b && b.previous == a
  }

  /** Next and previous are mutually inverse and run through the nodes in order. */
  ghost predicate Linked(ring: seq<Node>)
    reads ring
  {
    && |ring| >= 1 && Distinct(ring)
    && (forall i :: 0 <= i < |ring| - 1 ==> Joined(ring[i], ring[i + 1]))
    && Joined(ring[|ring| - 1], ring[0])
  }

  /** The node at place `k`, where the place past the last node is the sentinel's again. */
  ghost function At(ring: seq<Node>, k: nat): Node
    requires 0 < k <= |ring|
  {
    if k == |ring| then ring[0] else ring[k]
  }

  ghost function Pasted(ring: seq<Node>, k: nat, segment: seq<Node>): seq<Node>
    requires k <= |ring|
  {
    ring[..k] + segment + ring[k..]
  }

  ghost function Cut(ring: seq<Node>, a: nat, b: nat): seq<Node>
    requires a <= b <= |ring|
  {
    ring[..a] + ring[b..]
  }

  method Clear(sentinel: Node)
    modifies sentinel
    ensures Linked([sentinel])
  {
    sentinel.next := sentinel;
    sentinel.previous := sentinel;
  }

  /** Inserts a node before a position. */
  method Insert(position: Node, data: Node, ghost ring: seq<Node>, ghost k: nat) returns (result: Node)
    requires Linked(ring) && 0 < k <= |ring| && position == At(ring, k) && data !in ring
    modifies ring, data
    ensures result == data && Linked(Pasted(ring, k, [data]))
  {
    result := data;
    assert Joined(ring[k - 1], position);
    result.previous := position.previous;
    result.next := position;
    result.previous.next := result;
    position.previous := result;
  }

  /** Takes the node at a position out of its ring; the node still points into it. */
  method Remove(position: Node, ghost ring: seq<Node>, ghost k: nat) returns (result: Node)
    requires Linked(ring) && 0 < k < |ring| && position == ring[k]
    modifies ring
    ensures result == position && Linked(Cut(ring, k, k + 1))
    ensures position.next == old(position.next) && position.previous == old(position.previous)
  {
    assert Joined(ring[k - 1], position) && Joined(position, At(ring, k + 1));
    position.previous.next := position.next;
    position.next.previous := position.previous;
    return position;
  }

  /** A run of nodes joined in order, ends open. */
  ghost predicate Chain(segment: seq<Node>)
    reads segment
  {
    |segment| > 0 && Distinct(segment) && forall i :: 0 <= i < |segment| - 1 ==> Joined(segment[i], segment[i + 1])
  }

  /** Closes a ring over a segment, which stays a chain. */
  method CutOut(first: Node, last: Node, ghost ring: seq<Node>, ghost a: nat, ghost b: nat)
    requires Linked(ring) && 0 < a < b <= |ring| && first == ring[a] && last == ring[b - 1]
    modifies ring
    ensures Linked(Cut(ring, a, b)) && Chain(ring[a..b])
  {
    ghost var rest, segment := Cut(ring, a, b), ring[a..b];
    assert Joined(ring[a - 1], first) && Joined(last, At(ring, b));
    first.previous.next := last.next;
    last.next.previous := first.previous;
    forall i | 0 <= i < |rest| - 1 ensures Joined(rest[i], rest[i + 1]) {
      if i != a - 1 {
        assert rest[i] == if i < a then ring[i] else ring[i + b - a];
      }
    }
    forall i | 0 <= i < |segment| - 1 ensures Joined(segment[i], segment[i + 1]) {
      assert old(Joined(ring[a + i], ring[a + i + 1]));
    }
  }

  /** Opens a ring before a position and joins a chain in. */
  method PasteIn(position: Node, first: Node, last: Node, ghost ring: seq<Node>, ghost k: nat, ghost segment: seq<Node>)
    requires Linked(ring) && 0 < k <= |ring| && position == At(ring, k)
    requires Chain(segment) && first == segment[0] && last == segment[|segment| - 1]
    requires forall n :: n in segment ==> n !in ring
    modifies ring, segment
    ensures Linked(Pasted(ring, k, segment))
  {
    ghost var whole, s, n := Pasted(ring, k, segment), |segment|, |ring|;
    assert Joined(ring[k - 1], position) && position in ring && ring[k - 1] in ring;
    assert first in segment && last in segment;
    first.previous := position.previous;
    last.next := position;
    first.previous.next := first;
    position.previous := last;
    PastedDistinct(ring, k, segment);
    forall i | 0 <= i < n - 1 && i != k - 1 ensures Joined(ring[i], ring[i + 1]) {
      assert old(Joined(ring[i], ring[i + 1]));
      assert ring[i] != ring[k - 1] && ring[i + 1] != position;
      assert ring[i] in ring && ring[i + 1] in ring;
    }
    forall i | 0 <= i < s - 1 ensures Joined(segment[i], segment[i + 1]) {
      assert old(Joined(segment[i], segment[i + 1]));
      assert segment[i] in segment && segment[i + 1] in segment;
    }
    assert Joined(ring[k - 1], segment[0]) && Joined(segment[s - 1], position);
    assert k < n ==> Joined(ring[n - 1], ring[0]) by {
      assert old(Joined(ring[n - 1], ring[0]));
      assert ring[n - 1] in ring && ring[0] in ring;
      assert k < n ==> ring[n - 1] != ring[k - 1] && ring[0] != position;
    }
    forall i | 0 <= i < |whole| - 1 ensures Joined(whole[i], whole[i + 1]) {
      if i < k - 1 {
        assert whole[i] == ring[i] && whole[i + 1] == ring[i + 1];
      } else if i == k - 1 {
        assert whole[i] == ring[k - 1] && whole[i + 1] == segment[0];
      } else if i < k + s - 1 {
        assert whole[i] == segment[i - k] && whole[i + 1] == segment[i - k + 1];
      } else if i == k + s - 1 {
        assert whole[i] == segment[s - 1] && whole[i + 1] == ring[k];
      } else {
        assert whole[i] == ring[i - s] && whole[i + 1] == ring[i - s + 1];
      }
    }
    assert whole[0] == ring[0];
    assert whole[|whole| - 1] == if k == n then segment[s - 1] else ring[n - 1];
  }

  lemma PastedDistinct(ring: seq<Node>, k: nat, segment: seq<Node>)
    requires Distinct(ring) && Distinct(segment) && k <= |ring| && forall n :: n in segment ==> n !in ring
    ensures Distinct(Pasted(ring, k, segment))
  {
    var whole, s := Pasted(ring, k, segment), |segment|;
    forall i, j | 0 <= i < j < |whole| ensures whole[i] != whole[j] {
      var x := if i < k then ring[i] else if i < k + s then segment[i - k] else ring[i - s];
      var y := if j < k then ring[j] else if j < k + s then segment[j - k] else ring[j - s];
      assert whole[i] == x && whole[j] == y;
      if k <= i < k + s {
        assert x in segment;
      }
      if k <= j < k + s {
        assert y in segment;
      }
    }
  }

  lemma Apart(ring: seq<Node>, a: nat, b: nat)
    requires Linked(ring) && a <= b <= |ring|
    ensures forall n :: n in ring[a..b] ==> n in ring && n !in Cut(ring, a, b)
    ensures forall n :: n in Cut(ring, a, b) ==> n in ring
  {
  }

  twostate lemma StillLinked(ring: seq<Node>)
    requires old(Linked(ring))
    requires forall n :: n in ring ==> n.next == old(n.next) && n.previous == old(n.previous)
    ensures Linked(ring)
  {
    forall i | 0 <= i < |ring| - 1 ensures Joined(ring[i], ring[i + 1]) {
      assert old(Joined(ring[i], ring[i + 1]));
      assert ring[i] in ring && ring[i + 1] in ring;
    }
    assert old(Joined(ring[|ring| - 1], ring[0])) && ring[|ring| - 1] in ring && ring[0] in ring;
  }

  /** Moves the nodes from `first` to `last` before a position: in another ring, or in what
      is left of their own once they are cut out. */
  method Move(position: Node, first: Node, last: Node, ghost from: seq<Node>, ghost a: nat, ghost b: nat,
      ghost to: seq<Node>, ghost k: nat)
    returns (result: Node)
    requires Linked(from) && 0 < a < b <= |from| && first == from[a] && last == from[b - 1]
    requires to == Cut(from, a, b) || (Linked(to) && forall n :: n in to ==> n !in from)
    requires 0 < k <= |to| && position == At(to, k)
    modifies from, to
    ensures result == first
    ensures Linked(Pasted(to, k, from[a..b]))
    ensures to != Cut(from, a, b) ==> Linked(Cut(from, a, b))
  {
    hide Linked, Chain, Distinct, Cut, Pasted;
    ghost var rest, segment := Cut(from, a, b), from[a..b];
    Apart(from, a, b);
    CutOut(first, last, from, a, b);
    label Open:
    if to != rest {
      StillLinked(to);
    }
    PasteIn(position, first, last, to, k, segment);
    if to != rest {
      StillLinked@Open(rest);
    }
    return first;
  }

  /** Counts the nodes between the sentinel and itself. */
  method Size(sentinel: Node, ghost ring: seq<Node>) returns (size: nat)
    requires Linked(ring) && ring[0] == sentinel
    ensures size == |ring| - 1
  {
    size := 0;
    var position := sentinel.next;
    assert |ring| > 1 ==> Joined(ring[0], ring[1]);
    while position != sentinel
      invariant size < |ring| && position == At(ring, size + 1)
      decreases |ring| - size
    {
      assert Joined(ring[size + 1], At(ring, size + 2));
      size := size + 1;
      position := position.next;
    }
  }
}
