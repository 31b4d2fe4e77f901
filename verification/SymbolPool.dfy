/**
 The pool slots of the range coder and what they must hold to represent a model:
 every context's values form a binary search tree of slots, each slot storing the
 count of its value and the counts at or below it in its subtree.
 */
module SymbolPool {
  import opened Words
  import opened Contexts
  import opened RangeCoderSpec

  /** One slot: a node of the tree of the context it was seen in, and itself a context. */
  datatype Symbol = Symbol(
    value: byte, count: byte, under: u16, left: u16, right: u16,
    symbols: u16, escapes: u16, total: u16, parent: u16)

  /** What the slots stand for: the path each one was created for, and the values
      `[lo, hi)` that its subtree covers. */
  datatype Shape = Shape(path: seq<Path>, lo: seq<nat>, hi: seq<nat>)

  ghost predicate Slot(g: Shape, i: nat) {
    i < |g.path| == |g.lo| == |g.hi|
  }

  ghost predicate Node(g: Shape, i: nat) {
    Slot(g, i) && g.path[i] != []
  }

  /** The context whose tree a node belongs to, and the value it stands for there. */
  ghost function Home(g: Shape, i: nat): Path
    requires Node(g, i)
  {
    g.path[i][..|g.path[i]| - 1]
  }

  ghost function ValueOf(g: Shape, i: nat): byte
    requires Node(g, i)
  {
    g.path[i][|g.path[i]| - 1]
  }

  ghost predicate Covers(g: Shape, i: nat, v: int)
    requires Slot(g, i)
  {
    g.lo[i] <= v < g.hi[i]
  }

  /** Of two nodes of one tree at most one lies in the other's subtree. */
  ghost predicate Exclusive(g: Shape, i: nat, j: nat)
    requires Node(g, i) && Node(g, j)
  {
    i != j && Home(g, i) == Home(g, j) ==> !(Covers(g, i, ValueOf(g, j)) && Covers(g, j, ValueOf(g, i)))
  }

  ghost predicate Lengths(g: Shape) {
    && 1 <= |g.path| == |g.lo| == |g.hi|
    && g.path[0] == []
    && (forall i :: 1 <= i < |g.path| ==> 1 <= |g.path[i]| <= SUBCONTEXT_ORDER + 1)
    && (forall i :: 1 <= i < |g.path| ==> g.lo[i] <= ValueOf(g, i) < g.hi[i] <= 256)
  }

  ghost predicate Distinct(g: Shape) {
    forall i, j :: 0 <= i < j < |g.path| ==> g.path[i] != g.path[j]
  }

  ghost predicate AllExclusive(g: Shape)
    requires Lengths(g)
  {
    forall i, j :: 1 <= i < |g.path| && 1 <= j < |g.path| ==> Exclusive(g, i, j)
  }

  ghost predicate ShapeOk(g: Shape) {
    Lengths(g) && Distinct(g) && AllExclusive(g)
  }

  ghost predicate ChildOf(g: Shape, home: Path, j: nat, lo: nat, hi: nat) {
    Node(g, j) && Home(g, j) == home && g.lo[j] == lo && g.hi[j] == hi
  }

  /** A slot as a tree node, against the counts of its context. */
  ghost predicate NodeOk(g: Shape, i: nat, s: Symbol, c: Counts)
    requires Node(g, i)
  {
    var v: int, lo, hi := ValueOf(g, i), g.lo[i], g.hi[i];
    && lo <= v < hi <= 256
    && s.value == v
    && 0 < s.count == c[v]
    && s.under == Sum(c, lo, v + 1)
    && (if s.left == 0 then Sum(c, lo, v) == 0 else ChildOf(g, Home(g, i), i + s.left, lo, v))
    && (if s.right == 0 then Sum(c, v + 1, hi) == 0 else ChildOf(g, Home(g, i), i + s.right, v + 1, hi))
  }

  /** A slot as a context. */
  ghost predicate ContextOk(g: Shape, i: nat, s: Symbol, st: Stats)
    requires Slot(g, i)
  {
    && s.escapes == st.escapes
    && s.total == st.total
    && (if s.symbols == 0 then Sum(st.counts, 0, 256) == 0 else ChildOf(g, g.path[i], i + s.symbols, 0, 256))
  }

  /** A context that already had a tree keeps its links when a value is counted. */
  lemma ContextCounted(g: Shape, i: nat, s: Symbol, md: Model, home: Path, v: byte, update: nat)
    requires Slot(g, i) && ContextOk(g, i, s, Look(md, g.path[i]))
    requires s.symbols != 0 || g.path[i] != home
    ensures ContextOk(g, i, s, Look(Counted(md, home, v, update), g.path[i]))
  {
    if g.path[i] != home {
      CountedElsewhere(md, home, v, update, g.path[i]);
    }
  }

  /** A context with a node in its tree has a tree. */
  lemma ContextHasTree(g: Shape, i: nat, s: Symbol, st: Stats, node: nat, t: Symbol)
    requires Slot(g, i) && ContextOk(g, i, s, st)
    requires Node(g, node) && Home(g, node) == g.path[i] && NodeOk(g, node, t, st.counts)
    ensures s.symbols != 0
  {
    SumZero(st.counts, 0, 256);
  }

  /** A slot's link to the slot of the same value in the next shorter context. */
  ghost predicate ParentOk(g: Shape, i: nat, s: Symbol)
    requires Node(g, i)
  {
    Slot(g, s.parent) && g.path[s.parent] == Shorter(g.path[i])
  }

  lemma SelfCovering(g: Shape, i: nat)
    requires ShapeOk(g) && 1 <= i < |g.path|
    ensures Node(g, i) && g.lo[i] <= ValueOf(g, i) < g.hi[i] <= 256
  {
  }

  // ----- one value is counted more

  /** Counting `v` shows only in nodes that cover `v`. */
  lemma NodeElsewhere(g: Shape, i: nat, s: Symbol, c: Counts, v: byte, x: nat)
    requires Node(g, i) && NodeOk(g, i, s, c) && !Covers(g, i, v)
    ensures NodeOk(g, i, s, c[v := x])
  {
    var w: int := ValueOf(g, i);
    SumUpdate(c, v, x, g.lo[i], w + 1);
    SumUpdate(c, v, x, g.lo[i], w);
    SumUpdate(c, v, x, w + 1, g.hi[i]);
  }

  /** A node passed on the way to a smaller value, with its sum updated. */
  lemma NodeLeft(g: Shape, i: nat, s: Symbol, c: Counts, v: byte, d: nat)
    requires Node(g, i) && NodeOk(g, i, s, c)
    requires Covers(g, i, v) && v < ValueOf(g, i) && s.left != 0 && s.under + d < TWO16
    ensures NodeOk(g, i, s.(under := s.under + d), c[v := c[v] + d])
  {
    var w: int := ValueOf(g, i);
    SumUpdate(c, v, c[v] + d, g.lo[i], w + 1);
    SumUpdate(c, v, c[v] + d, w + 1, g.hi[i]);
  }

  /** A node passed on the way to a greater value. */
  lemma NodeRight(g: Shape, i: nat, s: Symbol, c: Counts, v: byte, d: nat)
    requires Node(g, i) && NodeOk(g, i, s, c)
    requires Covers(g, i, v) && v > ValueOf(g, i) && s.right != 0
    ensures NodeOk(g, i, s, c[v := c[v] + d])
  {
    var w: int := ValueOf(g, i);
    SumUpdate(c, v, c[v] + d, g.lo[i], w + 1);
    SumUpdate(c, v, c[v] + d, g.lo[i], w);
  }

  /** The node of the value itself. */
  lemma NodeFound(g: Shape, i: nat, s: Symbol, c: Counts, d: nat)
    requires Node(g, i) && NodeOk(g, i, s, c)
    requires s.under + d < TWO16 && s.count + d < TWO8
    ensures NodeOk(g, i, s.(under := s.under + d, count := s.count + d), c[ValueOf(g, i) := c[ValueOf(g, i)] + d])
  {
    var w: int := ValueOf(g, i);
    SumUpdate(c, w, c[w] + d, g.lo[i], w + 1);
    SumUpdate(c, w, c[w] + d, g.lo[i], w);
    SumUpdate(c, w, c[w] + d, w + 1, g.hi[i]);
  }

  lemma NodeIsSettled(g: Shape, i: nat, s: Symbol, c: Counts, v: byte, d: nat)
    requires Node(g, i) && NodeOk(g, i, s, c) && s.value == v
    requires s.under + d < TWO16 && c[v] + d < TWO8
    ensures ValueOf(g, i) == v && s.count + d < TWO8
    ensures NodeOk(g, i, s.(under := s.under + d, count := s.count + d), c[v := c[v] + d])
  {
    NodeFound(g, i, s, c, d);
  }

  /** Being a context concerns only the context fields of a slot. */
  lemma ContextFields(g: Shape, i: nat, s: Symbol, t: Symbol, st: Stats)
    requires Slot(g, i) && ContextOk(g, i, s, st)
    requires s.symbols == t.symbols && s.escapes == t.escapes && s.total == t.total
    ensures ContextOk(g, i, t, st)
  {
  }

  lemma NodeFields(g: Shape, i: nat, s: Symbol, t: Symbol, c: Counts)
    requires Node(g, i) && NodeOk(g, i, s, c)
    requires s.value == t.value && s.count == t.count && s.under == t.under && s.left == t.left && s.right == t.right
    ensures NodeOk(g, i, t, c)
  {
  }

  lemma SamePath(g: Shape, i: nat, j: nat)
    requires ShapeOk(g) && i < |g.path| && j < |g.path| && i != j
    ensures g.path[i] != g.path[j]
  {
  }

  // ----- the slots of a subtree

  /** No value of an uncounted range has a node. */
  lemma NoNodeIn(g: Shape, i: nat, s: Symbol, c: Counts, lo: nat, hi: nat)
    requires Node(g, i) && NodeOk(g, i, s, c)
    requires lo <= hi <= 256 && Sum(c, lo, hi) == 0
    ensures !(lo <= ValueOf(g, i) < hi)
  {
    SumZero(c, lo, hi);
  }

  /** Two nodes of one tree with the same value are one node. */
  lemma SameValue(g: Shape, i: nat, j: nat)
    requires ShapeOk(g) && Node(g, i) && Node(g, j)
    requires Home(g, i) == Home(g, j) && ValueOf(g, i) == ValueOf(g, j)
    ensures i == j
  {
    assert g.path[i] == Home(g, i) + [ValueOf(g, i)];
    assert g.path[j] == Home(g, j) + [ValueOf(g, j)];
  }

  /** A node in another's subtree, on one side of it, covers nothing on the other side. */
  lemma OneSide(g: Shape, i: nat, node: nat, v: byte)
    requires ShapeOk(g) && 1 <= i < |g.path| && 1 <= node < |g.path|
    requires i != node && Home(g, i) == Home(g, node)
    requires Covers(g, node, ValueOf(g, i)) && Covers(g, i, ValueOf(g, i))
    requires ValueOf(g, node) == v || (v < ValueOf(g, node) < ValueOf(g, i)) || (ValueOf(g, i) < ValueOf(g, node) < v)
    ensures !Covers(g, i, v)
  {
    assert Exclusive(g, i, node);
  }

  /** What a node's sum adds to the sum of everything below its subtree. */
  lemma NodeSums(g: Shape, i: nat, s: Symbol, c: Counts, v: byte)
    requires Node(g, i) && NodeOk(g, i, s, c) && Covers(g, i, v)
    ensures Sum(c, 0, g.lo[i]) + s.under == Sum(c, 0, ValueOf(g, i) + 1) <= Sum(c, 0, 256)
    ensures v == s.value ==> Sum(c, 0, v) + s.count == Sum(c, 0, v + 1) && s.count == c[v]
    ensures v < s.value && s.left == 0 ==> Sum(c, 0, v) == Sum(c, 0, g.lo[i]) && c[v] == 0
    ensures v > s.value && s.right == 0 ==> Sum(c, 0, v) == Sum(c, 0, ValueOf(g, i) + 1) && c[v] == 0
  {
    var lo, w: int, hi := g.lo[i], ValueOf(g, i), g.hi[i];
    SumSplit(c, 0, lo, w + 1);
    SumSplit(c, 0, w + 1, 256);
    if v < w && s.left == 0 {
      SumZero(c, lo, w);
      SumZero(c, lo, v);
      SumSplit(c, 0, lo, v);
    } else if v > w && s.right == 0 {
      SumZero(c, w + 1, hi);
      SumZero(c, w + 1, v);
      SumSplit(c, 0, w + 1, v);
    }
  }

  /** The decoder's comparisons at a node: which side the code lies on, and, at a
      missing child of the root context, which unseen value it stands for. */
  lemma NodeDecides(g: Shape, i: nat, s: Symbol, c: Counts, m: Minimum, code: nat, v: byte)
    requires Node(g, i) && NodeOk(g, i, s, c) && Covers(g, i, v)
    requires Below(c, v, m) <= code < Below(c, v, m) + c[v] + m
    ensures var after, before := Sum(c, 0, g.lo[i]) + s.under + (s.value + 1) * m, s.count + m;
            && before <= after == Below(c, ValueOf(g, i) + 1, m) <= Below(c, 256, m)
            && after - before == Below(c, ValueOf(g, i), m)
            && (code >= after <==> v > s.value)
            && (code < after - before <==> v < s.value)
            && (v > s.value && s.right == 0 ==> c[v] == 0 && v == s.value + 1 + (code - after))
            && (v < s.value && s.left == 0 ==> c[v] == 0 && v == s.value - 1 - (after - before - code - 1))
  {
    var w: int := ValueOf(g, i);
    NodeSums(g, i, s, c, v);
    SumSplit(c, 0, w, w + 1);
    assert Sum(c, w, w + 1) == c[w];
    BelowMono(c, w + 1, 256, m);
    if v < w {
      BelowMono(c, v, w, m);
      NodeGap(g, i, s, c, v);
    } else if w < v {
      BelowMono(c, w + 1, v, m);
      NodeGap(g, i, s, c, v);
    }
  }

  lemma NodeGap(g: Shape, i: nat, s: Symbol, c: Counts, v: byte)
    requires Node(g, i) && NodeOk(g, i, s, c) && Covers(g, i, v)
    ensures v < s.value && s.left == 0 ==> Sum(c, 0, v) == Sum(c, 0, s.value)
    ensures v > s.value && s.right == 0 ==> Sum(c, 0, v) == Sum(c, 0, ValueOf(g, i) + 1)
  {
    var lo, w: int, hi := g.lo[i], ValueOf(g, i), g.hi[i];
    if v < w && s.left == 0 {
      SumSplit(c, lo, v, w);
      SumSplit(c, 0, v, w);
    } else if v > w && s.right == 0 {
      SumSplit(c, w + 1, v, hi);
      SumSplit(c, 0, w + 1, v);
    }
  }

  // ----- walking a tree to count one value

  ghost function OldCounts(md: Model, home: Path): Counts {
    Look(md, home).counts
  }

  ghost function NewCounts(md: Model, home: Path, v: byte, update: nat): Counts {
    OldCounts(md, home)[v := OldCounts(md, home)[v] + update]
  }

  /** The model with `v` counted `update` more in one context; nothing else changes. */
  ghost function Counted(md: Model, home: Path, v: byte, update: nat): Model {
    md.(table := md.table[home := Look(md, home).(counts := NewCounts(md, home, v, update))],
        used := md.used + if OldCounts(md, home)[v] == 0 then 1 else 0)
  }

  lemma CountedHere(md: Model, home: Path, v: byte, update: nat)
    ensures Look(Counted(md, home, v, update), home) == Look(md, home).(counts := NewCounts(md, home, v, update))
  {
  }

  lemma CountedElsewhere(md: Model, home: Path, v: byte, update: nat, p: Path)
    requires p != home
    ensures Look(Counted(md, home, v, update), p) == Look(md, p)
  {
  }

  /** The fields can take the update. */
  ghost predicate Fits(md: Model, home: Path, v: byte, update: nat) {
    && 1 <= update
    && OldCounts(md, home)[v] + update < TWO8
    && Sum(OldCounts(md, home), 0, 256) + update < TWO16
  }

  /** While the walk for `v` stands at `node`: a slot of the tree outside `node`'s
      subtree holds the new counts, one inside still the old ones. */
  ghost predicate WalkOk(g: Shape, md: Model, home: Path, v: byte, update: nat, node: nat, i: nat, s: Symbol)
    requires Node(g, i) && Slot(g, node)
  {
    NodeOk(g, i, s,
      if Home(g, i) == home && !Covers(g, node, ValueOf(g, i)) then NewCounts(md, home, v, update)
      else OldCounts(md, Home(g, i)))
  }

  /** Where the walk may stand. */
  ghost predicate Stand(g: Shape, home: Path, v: byte, node: nat) {
    ShapeOk(g) && 1 <= node < |g.path| && Node(g, node) && Home(g, node) == home && Covers(g, node, v)
  }

  /** Descending to the child on `v`'s side settles every other node. */
  lemma WalkDescends(g: Shape, md: Model, home: Path, v: byte, update: nat, node: nat, next: nat, i: nat, s: Symbol)
    requires Stand(g, home, v, node) && Stand(g, home, v, next) && Node(g, i) && i != node && 1 <= i
    requires Covers(g, node, ValueOf(g, node))
    requires var w := ValueOf(g, node);
             || (v < w && g.lo[next] == g.lo[node] && g.hi[next] == w)
             || (v > w && g.lo[next] == w + 1 && g.hi[next] == g.hi[node])
    requires WalkOk(g, md, home, v, update, node, i, s)
    ensures WalkOk(g, md, home, v, update, next, i, s)
  {
    var w, u := ValueOf(g, node), ValueOf(g, i);
    if Home(g, i) == home && Covers(g, node, u) && !Covers(g, next, u) {
      if u == w {
        SameValue(g, i, node);
      } else {
        OneSide(g, i, node, v);
        NodeElsewhere(g, i, s, OldCounts(md, home), v, OldCounts(md, home)[v] + update);
      }
    }
  }

  /** When the walk has found `v` itself, the rest of the subtree is settled too. */
  lemma WalkEnds(g: Shape, md: Model, home: Path, v: byte, update: nat, node: nat, i: nat, s: Symbol)
    requires Stand(g, home, v, node) && Node(g, i) && i != node && 1 <= i
    requires ValueOf(g, node) == v
    requires WalkOk(g, md, home, v, update, node, i, s) && Home(g, i) == home
    ensures NodeOk(g, i, s, NewCounts(md, home, v, update))
  {
    if Covers(g, node, ValueOf(g, i)) {
      OneSide(g, i, node, v);
      NodeElsewhere(g, i, s, OldCounts(md, home), v, OldCounts(md, home)[v] + update);
    }
  }

  /** When the walk ends at a missing child on `v`'s side. */
  lemma WalkEndsAtGap(g: Shape, md: Model, home: Path, v: byte, update: nat, node: nat, lo: nat, hi: nat, i: nat,
      s: Symbol)
    requires Stand(g, home, v, node) && Node(g, i) && i != node && 1 <= i
    requires Covers(g, node, ValueOf(g, node))
    requires var w := ValueOf(g, node);
             || (v < w && lo == g.lo[node] && hi == w)
             || (v > w && lo == w + 1 && hi == g.hi[node])
    requires lo <= v < hi <= 256 && Sum(OldCounts(md, home), lo, hi) == 0
    requires WalkOk(g, md, home, v, update, node, i, s) && Home(g, i) == home
    ensures NodeOk(g, i, s, NewCounts(md, home, v, update)) && !(lo <= ValueOf(g, i) < hi)
  {
    var u := ValueOf(g, i);
    if Covers(g, node, u) {
      NoNodeIn(g, i, s, OldCounts(md, home), lo, hi);
      if u == ValueOf(g, node) {
        SameValue(g, i, node);
      } else {
        OneSide(g, i, node, v);
        NodeElsewhere(g, i, s, OldCounts(md, home), v, OldCounts(md, home)[v] + update);
      }
    }
  }

  lemma OtherPath(g: Shape, i: nat, home: Path, v: byte)
    requires Node(g, i) && !(Home(g, i) == home && ValueOf(g, i) == v)
    ensures g.path[i] != home + [v]
  {
    assert (home + [v])[..|home|] == home;
  }

  // ----- a new slot

  ghost function Extend(g: Shape, p: Path, lo: nat, hi: nat): Shape {
    Shape(g.path + [p], g.lo + [lo], g.hi + [hi])
  }

  lemma ExtendNode(g: Shape, p: Path, lo: nat, hi: nat, i: nat, s: Symbol, c: Counts)
    requires Node(g, i) && NodeOk(g, i, s, c)
    ensures var h := Extend(g, p, lo, hi); Node(h, i) && NodeOk(h, i, s, c) && Home(h, i) == Home(g, i)
  {
  }

  lemma ExtendContext(g: Shape, p: Path, lo: nat, hi: nat, i: nat, s: Symbol, st: Stats)
    requires Slot(g, i) && ContextOk(g, i, s, st)
    ensures ContextOk(Extend(g, p, lo, hi), i, s, st)
  {
  }

  /** A new leaf in an uncounted range is exclusive with every node of its tree. */
  lemma ExtendShape(g: Shape, home: Path, v: byte, lo: nat, hi: nat)
    requires ShapeOk(g) && |home| <= SUBCONTEXT_ORDER
    requires home + [v] !in g.path && lo <= v < hi <= 256
    requires forall i :: 1 <= i < |g.path| && Home(g, i) == home ==> !(lo <= ValueOf(g, i) < hi)
    ensures ShapeOk(Extend(g, home + [v], lo, hi))
  {
    var h, n := Extend(g, home + [v], lo, hi), |g.path|;
    assert Home(h, n) == home;
    forall i, j | 1 <= i < |h.path| && 1 <= j < |h.path| ensures Exclusive(h, i, j) {
      if i < n && j < n {
        assert Exclusive(g, i, j);
      }
    }
    forall i, j | 0 <= i < j < |h.path| ensures h.path[i] != h.path[j] {
      if j == n {
        assert g.path[i] in g.path;
      }
    }
  }

  /** The leaf itself. */
  lemma LeafOk(g: Shape, i: nat, s: Symbol, c: Counts, d: nat)
    requires Node(g, i)
    requires var v := ValueOf(g, i);
             && g.lo[i] <= v < g.hi[i] <= 256 && Sum(c, g.lo[i], g.hi[i]) == 0
             && s.value == v && 0 < s.count == d && s.under == d && s.left == 0 && s.right == 0
    ensures NodeOk(g, i, s, c[ValueOf(g, i) := c[ValueOf(g, i)] + d]) && c[ValueOf(g, i)] == 0
  {
    var v: int, lo, hi := ValueOf(g, i), g.lo[i], g.hi[i];
    SumZero(c, lo, hi);
    SumZero(c, lo, v);
    SumZero(c, v + 1, hi);
    SumSplit(c, lo, v, v + 1);
    var e := c[v := c[v] + d];
    SumUpdate(c, v, c[v] + d, lo, v + 1);
    SumUpdate(c, v, c[v] + d, lo, v);
    SumUpdate(c, v, c[v] + d, v + 1, hi);
  }

  /** The node the leaf hangs off. */
  lemma NodeGainsLeft(g: Shape, i: nat, s: Symbol, c: Counts, v: byte, d: nat, j: nat)
    requires Node(g, i) && NodeOk(g, i, s, c)
    requires Covers(g, i, v) && v < ValueOf(g, i) && s.left == 0 && s.under + d < TWO16
    requires i < j < i + TWO16 && ChildOf(g, Home(g, i), j, g.lo[i], ValueOf(g, i))
    ensures NodeOk(g, i, s.(under := s.under + d, left := j - i), c[v := c[v] + d])
  {
    var w: int := ValueOf(g, i);
    SumUpdate(c, v, c[v] + d, g.lo[i], w + 1);
    SumUpdate(c, v, c[v] + d, w + 1, g.hi[i]);
  }

  lemma NodeGainsRight(g: Shape, i: nat, s: Symbol, c: Counts, v: byte, d: nat, j: nat)
    requires Node(g, i) && NodeOk(g, i, s, c)
    requires Covers(g, i, v) && v > ValueOf(g, i) && s.right == 0
    requires i < j < i + TWO16 && ChildOf(g, Home(g, i), j, ValueOf(g, i) + 1, g.hi[i])
    ensures NodeOk(g, i, s.(right := j - i), c[v := c[v] + d])
  {
    var w: int := ValueOf(g, i);
    SumUpdate(c, v, c[v] + d, g.lo[i], w + 1);
    SumUpdate(c, v, c[v] + d, g.lo[i], w);
  }

  // ----- rescaling

  /** A node after halving, and what its parts then sum to. */
  lemma NodeHalved(g: Shape, i: nat, s: Symbol, c: Counts)
    requires Node(g, i) && NodeOk(g, i, s, c)
    ensures var w: int, lo, hi, h, k := ValueOf(g, i), g.lo[i], g.hi[i], Halved(c), HalfUp(s.count);
            && lo <= w < hi <= 256
            && Sum(h, lo, w + 1) == Sum(h, lo, w) + k <= s.under
            && NodeOk(g, i, s.(count := k, under := Sum(h, lo, w + 1)), h)
            && (if s.left == 0 then Sum(c, lo, w) == 0 == Sum(h, lo, w) else ChildOf(g, Home(g, i), i + s.left, lo, w))
            && (if s.right == 0 then Sum(c, w + 1, hi) == 0 == Sum(h, w + 1, hi)
                else ChildOf(g, Home(g, i), i + s.right, w + 1, hi))
  {
    var w: int := ValueOf(g, i);
    SumHalved(c, g.lo[i], w + 1);
    SumHalved(c, g.lo[i], w);
    SumHalved(c, w + 1, g.hi[i]);
  }

  // ----- the walk ends at a missing child

  /** The uncounted values on `v`'s side of a node without a child there. */
  ghost predicate Gap(g: Shape, node: nat, s: Symbol, v: byte, lo: nat, hi: nat)
    requires Node(g, node)
  {
    var w: int := ValueOf(g, node);
    || (v < w && s.left == 0 && lo == g.lo[node] && hi == w)
    || (v > w && s.right == 0 && lo == w + 1 && hi == g.hi[node])
  }

  lemma GapIsEmpty(g: Shape, node: nat, s: Symbol, c: Counts, v: byte, lo: nat, hi: nat)
    requires Node(g, node) && NodeOk(g, node, s, c) && Covers(g, node, v) && Gap(g, node, s, v, lo, hi)
    ensures lo <= v < hi <= 256 && Sum(c, lo, hi) == 0 && c[v] == 0
  {
    SumZero(c, lo, hi);
  }

  /** The node the new leaf hangs off, with the leaf linked. */
  ghost function WithChild(s: Symbol, v: byte, d: nat, node: nat, leaf: nat): Symbol
    requires node < leaf < node + TWO16
  {
    if v < s.value then s.(under := U16(s.under + d), left := leaf - node) else s.(right := leaf - node)
  }

  lemma WithChildOk(g: Shape, node: nat, s: Symbol, c: Counts, v: byte, d: nat, lo: nat, hi: nat)
    requires ShapeOk(g) && 1 <= node < |g.path| < node + TWO16 && NodeOk(g, node, s, c) && Covers(g, node, v)
    requires Gap(g, node, s, v, lo, hi) && s.under + d < TWO16
    ensures var h := Extend(g, Home(g, node) + [v], lo, hi);
            && Node(h, node) && Home(h, node) == Home(g, node)
            && NodeOk(h, node, WithChild(s, v, d, node, |g.path|), c[v := c[v] + d])
  {
    var home, leaf := Home(g, node), |g.path|;
    var h := Extend(g, home + [v], lo, hi);
    ExtendNode(g, home + [v], lo, hi, node, s, c);
    assert Home(h, leaf) == home;
    if v < ValueOf(g, node) {
      NodeGainsLeft(h, node, s, c, v, d, leaf);
    } else {
      NodeGainsRight(h, node, s, c, v, d, leaf);
    }
  }

  lemma LookFresh(md: Model, p: Path)
    requires p !in md.table && p != []
    ensures Look(md, p) == Fresh(0)
  {
  }

  lemma FreshContextOk(g: Shape, i: nat, s: Symbol)
    requires Slot(g, i) && s.symbols == s.escapes == s.total == 0
    ensures ContextOk(g, i, s, Fresh(0))
  {
    SumZero(NoCounts(), 0, 256);
  }

  /** The new leaf as a node, and as a context nothing was seen in yet. */
  lemma NewLeafOk(g: Shape, md: Model, home: Path, v: byte, d: nat, lo: nat, hi: nat)
    requires |g.path| == |g.lo| == |g.hi| && home + [v] !in md.table
    requires lo <= v < hi <= 256 && Sum(OldCounts(md, home), lo, hi) == 0 && 0 < d < TWO8
    ensures var h, leaf, s := Extend(g, home + [v], lo, hi), |g.path|, Symbol(v, d, d, 0, 0, 0, 0, 0, 0);
            && Node(h, leaf) && Home(h, leaf) == home
            && NodeOk(h, leaf, s, NewCounts(md, home, v, d))
            && ContextOk(h, leaf, s, Look(md, home + [v]))
  {
    hide Fresh, ContextOk, NodeOk, Distinct, AllExclusive, Lengths, Look, Sum;
    LookFresh(md, home + [v]);
    var h, leaf, s := Extend(g, home + [v], lo, hi), |g.path|, Symbol(v, d, d, 0, 0, 0, 0, 0, 0);
    assert Home(h, leaf) == home;
    LeafOk(h, leaf, s, OldCounts(md, home), d);
    FreshContextOk(h, leaf, s);
  }

  /** A context whose first value is seen. */
  lemma FirstChildOk(g: Shape, i: nat, s: Symbol, md: Model, v: byte, d: nat)
    requires ShapeOk(g) && i < |g.path| < i + TWO16 && ContextOk(g, i, s, Look(md, g.path[i])) && s.symbols == 0
    ensures var h := Extend(g, g.path[i] + [v], 0, 256);
            ContextOk(h, i, s.(symbols := |g.path| - i), Look(Counted(md, g.path[i], v, d), g.path[i]))
  {
    var h := Extend(g, g.path[i] + [v], 0, 256);
    assert Home(h, |g.path|) == g.path[i];
    CountedHere(md, g.path[i], v, d);
  }

  // ----- a context's weights after one of its values was counted

  /** The escape weight, total and rescaling that follow the tree update. */
  function Grown(st: Stats, count: nat, m: Minimum): Stats {
    var extra := if count == 0 then SUBCONTEXT_ESCAPE_DELTA else 0;
    var s := st.(escapes := st.escapes + extra, total := st.total + extra + Delta(m));
    if MustRescale(count, s.total, m) then Rescaled(s, m) else s
  }

  ghost function WithStats(md: Model, p: Path, st: Stats): Model {
    md.(table := md.table[p := st])
  }

  lemma WithStatsLook(md: Model, p: Path, st: Stats, q: Path)
    ensures Look(WithStats(md, p, st), q) == if q == p then st else Look(md, q)
  {
  }

  lemma GrownIsLearned(md: Model, p: Path, v: byte)
    ensures var m := MinimumOf(p);
            var c := Counted(md, p, v, Delta(m));
            WithStats(c, p, Grown(Look(c, p), OldCounts(md, p)[v] + m, m)) == Learn(md, p, v)
  {
    hide Rescaled;
    var m := MinimumOf(p);
    CountedHere(md, p, v, Delta(m));
    var c := Counted(md, p, v, Delta(m));
    assert WithStats(c, p, Grown(Look(c, p), OldCounts(md, p)[v] + m, m)).table == Learn(md, p, v).table;
  }

  /** A balanced context's fields take one more update. */
  lemma BalancedFits(md: Model, p: Path, v: byte)
    requires BalancedAt(md, p)
    ensures Fits(md, p, v, Delta(MinimumOf(p)))
    ensures Sum(OldCounts(md, p), 0, 256) + 256 * MinimumOf(p) < Look(md, p).total + 1 < TWO16 - 0x10
    ensures Look(md, p).escapes <= Look(md, p).total
  {
  }

  lemma BalancedHere(md: Model, p: Path)
    requires AllBalanced(md)
    ensures BalancedAt(md, p)
    ensures Balanced(Look(md, p), MinimumOf(p)) && Look(md, p).total < TWO16
  {
    assert BalancedAt(md, p);
  }

  /** The weights after the update still fit their fields. */
  lemma GrownFits(md: Model, p: Path, v: byte)
    requires BalancedAt(md, p)
    ensures var m := MinimumOf(p);
            var st := Look(Counted(md, p, v, Delta(m)), p);
            && Sum(st.counts, 0, 256) + 256 * m < TWO16 - 0x10
            && st.escapes <= st.total < TWO16 - 0x10
            && Grown(st, OldCounts(md, p)[v] + m, m).total < TWO16
  {
    hide Look, Rescaled;
    var m := MinimumOf(p);
    CountedHere(md, p, v, Delta(m));
    var st := Look(Counted(md, p, v, Delta(m)), p);
    SumUpdate(OldCounts(md, p), v, OldCounts(md, p)[v] + Delta(m), 0, 256);
    GrownIsBump(Look(md, p), v, m);
    BumpBalanced(Look(md, p), v, m);
  }

  lemma GrownIsBump(st: Stats, v: byte, m: Minimum)
    ensures Grown(st.(counts := st.counts[v := st.counts[v] + Delta(m)]), st.counts[v] + m, m) == Bump(st, v, m)
  {
  }

  lemma AllFit(md: Model, p: Path)
    requires BalancedAt(md, p)
    ensures forall v: byte :: Fits(md, p, v, Delta(MinimumOf(p)))
    ensures Look(md, p).total == Look(md, p).escapes + Sum(OldCounts(md, p), 0, 256) + 256 * MinimumOf(p) < TWO16
  {
    forall v: byte ensures Fits(md, p, v, Delta(MinimumOf(p))) {
      BalancedFits(md, p, v);
    }
  }
}
