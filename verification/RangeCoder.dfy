/**
 The range coder as it runs: a fixed pool of symbol slots updated in place by the
 tree walks of the encoder and decoder, and the two loops over the data.
 */
module RangeCoderPool {
  import opened Words
  import opened Buffers
  import opened Interval
  import opened Contexts
  import opened RangeCoderSpec
  import opened SymbolPool
  import opened RangeRegisters
  import opened RoundTrip

  /** How reading one value from the stream went. */
  datatype Verdict = KnownValue | EndOfData | NoSuchCode | PastTheTotal

  class RangeCoder {
    const symbols: array<Symbol>
    var nextSymbol: nat
    /** The path each used slot stands for, and the model the slots represent. */
    ghost var shape: Shape
    ghost var md: Model

    constructor ()
      ensures symbols.Length == POOL_SIZE && fresh(symbols)
    {
      symbols := new Symbol[POOL_SIZE](_ => Symbol(0, 0, 0, 0, 0, 0, 0, 0, 0));
      nextSymbol := 0;
      shape, md := Shape([], [], []), INITIAL;
    }

    ghost predicate Layout()
      reads this
    {
      && symbols.Length == POOL_SIZE
      && ShapeOk(shape)
      && |shape.path| == |shape.lo| == |shape.hi| == nextSymbol == md.used <= POOL_SIZE
      && (forall p :: p in md.table ==> p in shape.path)
    }

    ghost predicate NodeAt(i: nat)
      requires Layout() && 1 <= i < nextSymbol
      reads this, symbols
    {
      NodeOk(shape, i, symbols[i], Look(md, Home(shape, i)).counts)
    }

    ghost predicate ContextAt(i: nat)
      requires Layout() && i < nextSymbol
      reads this, symbols
    {
      ContextOk(shape, i, symbols[i], Look(md, shape.path[i]))
    }

    /** The pool represents the model. */
    ghost predicate Repr()
      reads this, symbols
    {
      && Layout()
      && (forall i :: 1 <= i < nextSymbol ==> NodeAt(i))
      && (forall i :: 0 <= i < nextSymbol ==> ContextAt(i))
    }

    /** Every slot but `except` is linked to the same value's slot one context up. */
    ghost predicate Linked(except: int)
      requires Layout()
      reads this, symbols
    {
      forall i :: 1 <= i < nextSymbol && i != except ==> ParentOk(shape, i, symbols[i])
    }

    method SymbolCreate(value: byte, count: byte, ghost p: Path, ghost lo: nat, ghost hi: nat) returns (symbol: nat)
      requires symbols.Length == POOL_SIZE && nextSymbol < POOL_SIZE
      modifies this`nextSymbol, this`shape, symbols
      ensures symbol == old(nextSymbol) && nextSymbol == symbol + 1
      ensures shape == Extend(old(shape), p, lo, hi)
      ensures symbols[symbol] == Symbol(value, count, count, 0, 0, 0, 0, 0, 0)
      ensures forall i :: 0 <= i < symbols.Length && i != symbol ==> symbols[i] == old(symbols[i])
    {
      symbol := nextSymbol;
      nextSymbol := nextSymbol + 1;
      symbols[symbol] := Symbol(value, count, count, 0, 0, 0, 0, 0, 0);
      shape := Extend(shape, p, lo, hi);
    }

    // ----- the tree walk that counts one value

    ghost predicate WalkAt(home: Path, v: byte, update: nat, node: nat, i: nat)
      requires Layout() && 1 <= i < nextSymbol && node < nextSymbol
      reads this, symbols
    {
      WalkOk(shape, md, home, v, update, node, i, symbols[i])
    }

    ghost predicate Walking(home: Path, v: byte, update: nat, node: nat)
      reads this, symbols
    {
      && Layout()
      && Fits(md, home, v, update)
      && Stand(shape, home, v, node)
      && home in shape.path
      && (forall i :: 1 <= i < nextSymbol ==> WalkAt(home, v, update, node, i))
      && (forall i :: 0 <= i < nextSymbol ==> ContextAt(i))
    }

    lemma WalkStarts(context: nat, v: byte, update: nat)
      requires Repr() && context < nextSymbol && symbols[context].symbols != 0
      requires Fits(md, shape.path[context], v, update)
      ensures Walking(shape.path[context], v, update, context + symbols[context].symbols)
      ensures shape.lo[context + symbols[context].symbols] == 0
    {
      var node := context + symbols[context].symbols;
      assert ContextAt(context);
      assert ChildOf(shape, shape.path[context], node, 0, 256);
      forall i | 1 <= i < nextSymbol ensures WalkAt(shape.path[context], v, update, node, i) {
        assert NodeAt(i);
      }
    }

    lemma WalkInside(home: Path, v: byte, update: nat, node: nat)
      requires Walking(home, v, update, node)
      ensures Layout() && node < nextSymbol && shape.lo[node] <= 256
    {
      SelfCovering(shape, node);
    }

    /** Looking for a code past all values, the walk keeps to the right. */
    ghost predicate PastAll(home: Path, node: nat)
      reads this, symbols
    {
      Repr() && 1 <= node < nextSymbol && Home(shape, node) == home && shape.hi[node] == 256
    }

    lemma TreeRoot(context: nat)
      requires Repr() && context < nextSymbol && symbols[context].symbols != 0
      ensures PastAll(shape.path[context], context + symbols[context].symbols)
      ensures shape.lo[context + symbols[context].symbols] == 0
    {
      assert ContextAt(context);
      assert ChildOf(shape, shape.path[context], context + symbols[context].symbols, 0, 256);
    }

    lemma PastNode(home: Path, node: nat)
      requires PastAll(home, node)
      ensures var c, s := OldCounts(md, home), symbols[node];
              && shape.lo[node] <= s.value == ValueOf(shape, node)
              && Sum(c, 0, shape.lo[node]) + s.under == Sum(c, 0, s.value + 1) <= Sum(c, 0, 256)
              && (if s.right != 0 then PastAll(home, node + s.right) && shape.lo[node + s.right] == s.value + 1
                  else Sum(c, 0, s.value + 1) == Sum(c, 0, 256))
    {
      assert NodeAt(node);
      NodeSums(shape, node, symbols[node], OldCounts(md, home), ValueOf(shape, node));
      SumSplit(OldCounts(md, home), 0, ValueOf(shape, node) + 1, 256);
    }

    /** Where the walk stands the tree still has the old counts. */
    lemma WalkNode(home: Path, v: byte, update: nat, node: nat)
      requires Walking(home, v, update, node)
      ensures Node(shape, node) && node < symbols.Length && NodeOk(shape, node, symbols[node], OldCounts(md, home))
      ensures symbols[node].under + update < TWO16 && symbols[node].value == ValueOf(shape, node)
      ensures Layout() && node < nextSymbol && Covers(shape, node, ValueOf(shape, node)) && Covers(shape, node, v)
      ensures Home(shape, node) == home
      ensures var w: int := ValueOf(shape, node);
              && (v < w && symbols[node].left != 0 ==> StandsAt(home, v, node + symbols[node].left, shape.lo[node], w))
              && (v > w && symbols[node].right != 0 ==>
                    StandsAt(home, v, node + symbols[node].right, w + 1, shape.hi[node]))
    {
      assert WalkAt(home, v, update, node, node);
      SumPart(OldCounts(md, home), shape.lo[node], ValueOf(shape, node) + 1);
    }

    ghost predicate StandsAt(home: Path, v: byte, node: nat, lo: nat, hi: nat)
      reads this
    {
      Stand(shape, home, v, node) && shape.lo[node] == lo && shape.hi[node] == hi
    }

    /** Passing `node` towards a smaller value: its subtree will hold one more `v`. */
    method WalkLeft(node: nat, update: nat, ghost home: Path, ghost v: byte) returns (next: nat)
      requires Walking(home, v, update, node)
      requires v < symbols[node].value && symbols[node].left != 0
      modifies symbols
      ensures Walking(home, v, update, next)
      ensures next > node && shape.lo[next] == shape.lo[node]
      ensures forall i :: 0 <= i < symbols.Length ==> symbols[i].parent == old(symbols[i].parent)
    {
      hide NodeOk, Distinct, AllExclusive;
      WalkNode(home, v, update, node);
      ghost var was := symbols[node];
      next := node + symbols[node].left;
      symbols[node] := symbols[node].(under := U16(symbols[node].under + update));
      NodeLeft(shape, node, was, OldCounts(md, home), v, update);
      forall i | 1 <= i < nextSymbol ensures WalkAt(home, v, update, next, i) {
        assert old(WalkAt(home, v, update, node, i));
        if i != node {
          WalkDescends(shape, md, home, v, update, node, next, i, symbols[i]);
        }
      }
      forall i | 0 <= i < nextSymbol ensures ContextAt(i) {
        assert old(ContextAt(i));
      }
    }

    /** Passing `node` towards a greater value. */
    lemma WalkRight(node: nat, update: nat, home: Path, v: byte)
      requires Walking(home, v, update, node)
      requires v > symbols[node].value && symbols[node].right != 0
      ensures Walking(home, v, update, node + symbols[node].right)
      ensures var next := node + symbols[node].right;
              shape.lo[next] == symbols[node].value + 1 && shape.hi[next] == shape.hi[node]
    {
      hide NodeOk, Distinct, AllExclusive;
      var next := node + symbols[node].right;
      WalkNode(home, v, update, node);
      NodeRight(shape, node, symbols[node], OldCounts(md, home), v, update);
      forall i | 1 <= i < nextSymbol ensures WalkAt(home, v, update, next, i) {
        assert WalkAt(home, v, update, node, i);
        if i != node {
          WalkDescends(shape, md, home, v, update, node, next, i, symbols[i]);
        }
      }
    }

    /** The walk found `v`'s own node. */
    method WalkFound(node: nat, update: nat, ghost home: Path)
      requires node < symbols.Length && Walking(home, symbols[node].value, update, node)
      modifies symbols, this`md
      ensures Repr() && md == Counted(old(md), home, old(symbols[node].value), update)
      ensures forall i :: 0 <= i < symbols.Length ==> symbols[i].parent == old(symbols[i].parent)
    {
      hide NodeOk, Distinct, AllExclusive, ContextOk, Look;
      ghost var v, was, md0 := symbols[node].value, symbols[node], md;
      WalkNode(home, v, update, node);
      NodeIsSettled(shape, node, was, OldCounts(md, home), v, update);
      symbols[node] := symbols[node].(under := U16(symbols[node].under + update),
                                      count := U8(symbols[node].count + update));
      md := Counted(md, home, v, update);
      CountedHere(md0, home, v, update);
      forall i | 0 <= i < nextSymbol ensures ContextAt(i) {
        assert old(ContextAt(i));
        ContextFields(shape, i, old(symbols[i]), symbols[i], Look(md0, shape.path[i]));
        if shape.path[i] == home {
          ContextHasTree(shape, i, symbols[i], Look(md0, home), node, was);
        }
        ContextCounted(shape, i, symbols[i], md0, home, v, update);
      }
      forall i | 1 <= i < nextSymbol ensures NodeAt(i) {
        assert old(WalkAt(home, v, update, node, i));
        if Home(shape, i) != home {
          CountedElsewhere(md0, home, v, update, Home(shape, i));
        } else if i != node {
          WalkEnds(shape, md0, home, v, update, node, i, symbols[i]);
        }
      }
    }

    /** At a gap every other slot of the tree is settled and outside the gap. */
    lemma GapSettled(home: Path, v: byte, update: nat, node: nat, lo: nat, hi: nat, i: nat)
      requires Walking(home, v, update, node) && Gap(shape, node, symbols[node], v, lo, hi)
      requires 1 <= i < nextSymbol && Home(shape, i) == home
      ensures i != node ==> NodeOk(shape, i, symbols[i], NewCounts(md, home, v, update))
      ensures !(lo <= ValueOf(shape, i) < hi)
    {
      hide NodeOk, Distinct, AllExclusive, ContextOk, Look;
      WalkNode(home, v, update, node);
      GapIsEmpty(shape, node, symbols[node], OldCounts(md, home), v, lo, hi);
      assert WalkAt(home, v, update, node, i);
      if i != node {
        WalkEndsAtGap(shape, md, home, v, update, node, lo, hi, i, symbols[i]);
      }
    }

    /** So the tree has no slot for `v`, and one can be added in the gap. */
    lemma GapExtends(home: Path, v: byte, update: nat, node: nat, lo: nat, hi: nat)
      requires Walking(home, v, update, node) && Gap(shape, node, symbols[node], v, lo, hi)
      requires |home| <= SUBCONTEXT_ORDER
      ensures home + [v] !in shape.path && home + [v] !in md.table
      ensures ShapeOk(Extend(shape, home + [v], lo, hi))
    {
      hide NodeOk, Distinct, AllExclusive, ContextOk, Look;
      WalkNode(home, v, update, node);
      GapIsEmpty(shape, node, symbols[node], OldCounts(md, home), v, lo, hi);
      forall i | 1 <= i < nextSymbol && Home(shape, i) == home
        ensures !(lo <= ValueOf(shape, i) < hi)
      {
        GapSettled(home, v, update, node, lo, hi, i);
      }
      forall i | 1 <= i < nextSymbol ensures shape.path[i] != home + [v] {
        OtherPath(shape, i, home, v);
      }
      ExtendShape(shape, home, v, lo, hi);
    }

    /** A leaf is created and linked to the side of the node where its value belongs. */
    method LinkLeaf(node: nat, v: byte, update: nat, ghost p: Path, ghost lo: nat, ghost hi: nat) returns (symbol: nat)
      requires node < nextSymbol < POOL_SIZE == symbols.Length && update < 256
      modifies symbols, this`nextSymbol, this`shape
      ensures symbol == old(nextSymbol) && nextSymbol == symbol + 1 && shape == Extend(old(shape), p, lo, hi)
      ensures symbols[symbol] == Symbol(v, update, update, 0, 0, 0, 0, 0, 0)
      ensures symbols[node] == WithChild(old(symbols[node]), v, update, node, symbol)
      ensures forall i :: 0 <= i < symbols.Length && i != symbol && i != node ==> symbols[i] == old(symbols[i])
    {
      if v < symbols[node].value {
        symbols[node] := symbols[node].(under := U16(symbols[node].under + update));
        symbol := SymbolCreate(v, update, p, lo, hi);
        symbols[node] := symbols[node].(left := symbol - node);
      } else {
        symbol := SymbolCreate(v, update, p, lo, hi);
        symbols[node] := symbols[node].(right := symbol - node);
      }
    }

    /** The walk ended where `v`'s slot is missing: a leaf is created and linked. */
    method WalkCreate(node: nat, v: byte, update: nat, ghost home: Path) returns (symbol: nat)
      requires nextSymbol < POOL_SIZE && |home| <= SUBCONTEXT_ORDER
      requires Walking(home, v, update, node)
      requires v != symbols[node].value
      requires (if v < symbols[node].value then symbols[node].left else symbols[node].right) == 0
      modifies symbols, this`md, this`nextSymbol, this`shape
      ensures Repr() && md == Counted(old(md), home, v, update)
      ensures old(OldCounts(md, home))[v] == 0
      ensures symbol == old(nextSymbol) && shape.path == old(shape.path) + [home + [v]] && symbols[symbol].parent == 0
      ensures forall i :: 0 <= i < old(nextSymbol) ==> symbols[i].parent == old(symbols[i].parent)
    {
      hide NodeOk, Distinct, AllExclusive, ContextOk, Look, Sum, Delta;
      ghost var was, md0, g, w: int := symbols[node], md, shape, ValueOf(shape, node);
      WalkNode(home, v, update, node);
      ghost var lo, hi := if v < w then g.lo[node] else w + 1, if v < w then w else g.hi[node];
      GapIsEmpty(g, node, was, OldCounts(md, home), v, lo, hi);
      GapExtends(home, v, update, node, lo, hi);
      forall i | 1 <= i < nextSymbol && Home(shape, i) == home && i != node
        ensures NodeOk(shape, i, symbols[i], NewCounts(md, home, v, update))
      {
        GapSettled(home, v, update, node, lo, hi, i);
      }
      symbol := LinkLeaf(node, v, update, home + [v], lo, hi);
      WithChildOk(g, node, was, OldCounts(md, home), v, update, lo, hi);
      NewLeafOk(g, md0, home, v, update, lo, hi);
      md := Counted(md, home, v, update);
      CountedHere(md0, home, v, update);
      CountedElsewhere(md0, home, v, update, home + [v]);
      forall i | 0 <= i < nextSymbol ensures ContextAt(i) {
        if i < symbol {
          assert old(ContextAt(i));
          ContextFields(g, i, old(symbols[i]), symbols[i], Look(md0, g.path[i]));
          if g.path[i] == home {
            ContextHasTree(g, i, symbols[i], Look(md0, home), node, was);
          }
          ContextCounted(g, i, symbols[i], md0, home, v, update);
          ExtendContext(g, home + [v], lo, hi, i, symbols[i], Look(md, g.path[i]));
        }
      }
      forall i | 1 <= i < nextSymbol ensures NodeAt(i) {
        if i < symbol && i != node {
          assert old(WalkAt(home, v, update, node, i));
          ghost var c := if Home(g, i) == home then NewCounts(md0, home, v, update) else OldCounts(md0, Home(g, i));
          if Home(g, i) != home {
            CountedElsewhere(md0, home, v, update, Home(g, i));
          }
          ExtendNode(g, home + [v], lo, hi, i, symbols[i], c);
        }
      }
    }

    /** A context without a tree has no nodes, so its first one can be added. */
    lemma NoTreeExtends(context: nat, v: byte)
      requires Repr() && context < nextSymbol && symbols[context].symbols == 0
      requires |shape.path[context]| <= SUBCONTEXT_ORDER
      ensures var home := shape.path[context];
              && Sum(OldCounts(md, home), 0, 256) == 0
              && home + [v] !in shape.path && home + [v] !in md.table
              && ShapeOk(Extend(shape, home + [v], 0, 256))
              && (forall i :: 1 <= i < nextSymbol ==> Home(shape, i) != home)
    {
      hide Distinct, AllExclusive, Look;
      var home := shape.path[context];
      assert ContextAt(context);
      forall i | 1 <= i < nextSymbol ensures Home(shape, i) != home {
        assert NodeAt(i);
        if Home(shape, i) == home {
          NoNodeIn(shape, i, symbols[i], OldCounts(md, home), 0, 256);
        }
      }
      forall i | 1 <= i < nextSymbol ensures shape.path[i] != home + [v] {
        OtherPath(shape, i, home, v);
      }
      ExtendShape(shape, home, v, 0, 256);
    }

    /** The first value of a context: its slot becomes the root of the context's tree. */
    method TreeCreate(context: nat, v: byte, update: nat) returns (symbol: nat)
      requires Repr() && context < nextSymbol < POOL_SIZE && symbols[context].symbols == 0
      requires |shape.path[context]| <= SUBCONTEXT_ORDER && Fits(md, shape.path[context], v, update)
      modifies symbols, this`md, this`nextSymbol, this`shape
      ensures Repr() && md == Counted(old(md), old(shape.path[context]), v, update)
      ensures old(OldCounts(md, shape.path[context]))[v] == 0
      ensures symbol == old(nextSymbol) && symbols[symbol].parent == 0
      ensures shape.path == old(shape.path) + [old(shape.path[context]) + [v]]
      ensures forall i :: 0 <= i < old(nextSymbol) ==> symbols[i].parent == old(symbols[i].parent)
    {
      hide NodeOk, Distinct, AllExclusive, ContextOk, Look;
      ghost var md0, g, home := md, shape, shape.path[context];
      NoTreeExtends(context, v);
      assert ContextAt(context);
      SumZero(OldCounts(md, home), 0, 256);
      FirstChildOk(g, context, symbols[context], md0, v, update);
      NewLeafOk(g, md0, home, v, update, 0, 256);
      symbol := SymbolCreate(v, update, home + [v], 0, 256);
      symbols[context] := symbols[context].(symbols := symbol - context);
      md := Counted(md, home, v, update);
      CountedHere(md0, home, v, update);
      CountedElsewhere(md0, home, v, update, home + [v]);
      forall i | 0 <= i < nextSymbol ensures ContextAt(i) {
        if i < symbol && i != context {
          assert old(ContextAt(i));
          ContextFields(g, i, old(symbols[i]), symbols[i], Look(md0, g.path[i]));
          SamePath(g, i, context);
          ContextCounted(g, i, symbols[i], md0, home, v, update);
          ExtendContext(g, home + [v], 0, 256, i, symbols[i], Look(md, g.path[i]));
        }
      }
      forall i | 1 <= i < nextSymbol ensures NodeAt(i) {
        if i < symbol {
          assert old(NodeAt(i));
          NodeFields(g, i, old(symbols[i]), symbols[i], OldCounts(md0, Home(g, i)));
          CountedElsewhere(md0, home, v, update, Home(g, i));
          ExtendNode(g, home + [v], 0, 256, i, symbols[i], OldCounts(md0, Home(g, i)));
        }
      }
    }

    /** Counts `v` once more in a context's tree, giving it a slot if it has none, and
        reads off the part of the context's weight that codes `v`. */
    method ContextEncode(context: nat, value: byte, update: nat, minimum: Minimum) returns (symbol: nat, under: u16,
        count: u16)
      requires Repr() && context < nextSymbol < POOL_SIZE
      requires |shape.path[context]| <= SUBCONTEXT_ORDER && Fits(md, shape.path[context], value, update)
      requires Sum(OldCounts(md, shape.path[context]), 0, 256) + 256 * minimum < TWO16
      modifies symbols, this`md, this`nextSymbol, this`shape
      ensures Repr() && md == Counted(old(md), old(shape.path[context]), value, update)
      ensures var c := old(OldCounts(md, shape.path[context]));
              && under == Below(c, value, minimum)
              && count == c[value] + minimum
              && (if c[value] == 0 then symbol == old(nextSymbol) == nextSymbol - 1 && symbols[symbol].parent == 0
                  else nextSymbol == old(nextSymbol))
      ensures old(shape.path) <= shape.path
      ensures symbol < nextSymbol && shape.path[symbol] == old(shape.path[context]) + [value]
      ensures forall i :: 0 <= i < old(nextSymbol) ==> symbols[i].parent == old(symbols[i].parent)
    {
      hide NodeOk, Distinct, AllExclusive, ContextOk, Look, Sum, Lengths, Counted, NodeAt, ContextAt, WalkAt, Walking;
      BelowEnds(OldCounts(md, shape.path[context]));
      ghost var home, c := shape.path[context], OldCounts(md, shape.path[context]);
      under := U16(value * minimum);
      count := minimum;
      if symbols[context].symbols == 0 {
        NoTreeExtends(context, value);
        SumSplit(c, 0, value, 256);
        symbol := TreeCreate(context, value, update);
      } else {
        var node := context + symbols[context].symbols;
        WalkStarts(context, value, update);
        WalkInside(home, value, update, node);
        while true
          invariant home == old(shape.path[context]) && c == OldCounts(md, home)
          invariant Layout() && node < nextSymbol && shape.lo[node] <= 256 && Walking(home, value, update, node)
          invariant shape == old(shape) && md == old(md) && nextSymbol == old(nextSymbol)
          invariant under == value * minimum + Sum(c, 0, shape.lo[node])
          invariant forall i :: 0 <= i < nextSymbol ==> symbols[i].parent == old(symbols[i].parent)
          decreases POOL_SIZE - node
        {
          WalkNode(home, value, update, node);
          NodeSums(shape, node, symbols[node], c, value);
          if value < symbols[node].value {
            if symbols[node].left != 0 {
              node := WalkLeft(node, update, home, value);
              WalkInside(home, value, update, node);
              continue;
            }
            symbol := WalkCreate(node, value, update, home);
          } else if value > symbols[node].value {
            under := U16(under + symbols[node].under);
            if symbols[node].right != 0 {
              WalkRight(node, update, home, value);
              node := node + symbols[node].right;
              WalkInside(home, value, update, node);
              continue;
            }
            symbol := WalkCreate(node, value, update, home);
          } else {
            count := U16(count + symbols[node].count);
            under := U16(under + symbols[node].under - symbols[node].count);
            WalkFound(node, update, home);
            symbol := node;
          }
          break;
        }
      }
    }

    /** Where the walk for a code stands: on the way to the value that has it, or to the right
        of all values. */
    ghost predicate Trying(home: Path, v: byte, update: nat, node: nat, hit: bool)
      reads this, symbols
    {
      if hit then Walking(home, v, update, node) else PastAll(home, node)
    }

    /** What the code tells at a node. */
    lemma TryHere(home: Path, v: byte, update: nat, node: nat, hit: bool, code: nat)
      requires Trying(home, v, update, node, hit)
      requires var c := OldCounts(md, home);
               if hit then Below(c, v, 0) <= code < Below(c, v, 0) + c[v] else code >= Sum(c, 0, 256)
      requires Sum(OldCounts(md, home), 0, 256) < TWO16
      ensures Layout() && node < nextSymbol && shape.lo[node] <= 256
      ensures var c, s := OldCounts(md, home), symbols[node];
              var after := Sum(c, 0, shape.lo[node]) + s.under;
              && s.count <= after < TWO16
              && (if code >= after then
                    if s.right == 0 then !hit
                    else
                      && node + s.right < nextSymbol && shape.lo[node + s.right] <= 256
                      && Trying(home, v, update, node + s.right, hit)
                      && Sum(c, 0, shape.lo[node + s.right]) == after
                  else if code < after - s.count then hit && v < s.value && s.left != 0
                  else hit && v == s.value && after - s.count == Below(c, v, 0) && s.count == c[v])
    {
      hide NodeOk, Distinct, AllExclusive, ContextOk, Look, Locate, Sum, Lengths, NodeAt, ContextAt, WalkAt, U16;
      var c, s := OldCounts(md, home), symbols[node];
      if hit {
        WalkNode(home, v, update, node);
        WalkInside(home, v, update, node);
        NodeDecides(shape, node, s, c, 0, code, v);
        NodeSums(shape, node, s, c, v);
        BelowEnds(c);
        if v > s.value {
          WalkRight(node, update, home, v);
          WalkInside(home, v, update, node + s.right);
        }
      } else {
        PastNode(home, node);
        PastCounts(home, node);
      }
    }

    lemma PastCounts(home: Path, node: nat)
      requires PastAll(home, node)
      ensures Layout() && shape.lo[node] <= 256
      ensures symbols[node].count <= Sum(OldCounts(md, home), 0, shape.lo[node]) + symbols[node].under
    {
      hide Look;
      assert NodeAt(node);
      NodeSums(shape, node, symbols[node], OldCounts(md, home), ValueOf(shape, node));
    }

    /** The value whose part of a subcontext's weight holds `code`, counted once more;
        not found when the code lies past all of them. */
    method ContextTryDecode(context: nat, code: u16, update: nat)
      returns (found: bool, symbol: nat, value: byte, under: u16, count: u16)
      requires Repr() && context < nextSymbol < POOL_SIZE && |shape.path[context]| <= SUBCONTEXT_ORDER
      requires forall v: byte :: Fits(md, shape.path[context], v, update)
      modifies symbols, this`md
      ensures found == (code < old(Sum(OldCounts(md, shape.path[context]), 0, 256)))
      ensures !found ==> md == old(md)
      ensures found ==>
        var c := old(OldCounts(md, shape.path[context]));
        && value == Locate(c, code, 0, 0)
        && under == Below(c, value, 0)
        && count == c[value] > 0
        && Repr() && md == Counted(old(md), old(shape.path[context]), value, update)
        && symbol < nextSymbol && shape.path[symbol] == old(shape.path[context]) + [value]
      ensures forall i :: 0 <= i < nextSymbol ==> symbols[i].parent == old(symbols[i].parent)
    {
      hide NodeOk, Distinct, AllExclusive, ContextOk, Look, Locate, Sum, Lengths, Counted, NodeAt, ContextAt, WalkAt,
           Walking, PastAll, Trying, Below;
      symbol, value, under, count := 0, 0, 0, 0;
      if symbols[context].symbols == 0 {
        NoTreeExtends(context, 0);
        return false, symbol, value, under, count;
      }
      ghost var home, c := shape.path[context], OldCounts(md, shape.path[context]);
      ghost var hit, v := TryStarts(context, code, update);
      var node := context + symbols[context].symbols;
      while true
        invariant home == old(shape.path[context]) && c == OldCounts(md, home)
        invariant md == old(md)
        invariant Layout() && node < nextSymbol && shape.lo[node] <= 256 && Trying(home, v, update, node, hit)
        invariant under == Sum(c, 0, shape.lo[node]) && count == 0
        invariant forall i :: 0 <= i < nextSymbol ==> symbols[i].parent == old(symbols[i].parent)
        decreases POOL_SIZE - node
      {
        TryHere(home, v, update, node, hit, code);
        var after, before := U16(under + symbols[node].under), symbols[node].count;
        if code >= after {
          under := U16(under + symbols[node].under);
          if symbols[node].right != 0 {
            node := node + symbols[node].right;
            continue;
          }
          return false, symbol, value, under, count;
        } else if code < after - before {
          node := TryLeft(node, update, home, v);
          continue;
        } else {
          value := symbols[node].value;
          count := U16(count + symbols[node].count);
          under := U16(after - before);
          TryEnds(home, v, update, node);
          WalkFound(node, update, home);
          return true, node, value, under, count;
        }
      }
    }

    lemma TryStarts(context: nat, code: u16, update: nat) returns (hit: bool, v: byte)
      requires Repr() && context < nextSymbol && symbols[context].symbols != 0
      requires |shape.path[context]| <= SUBCONTEXT_ORDER
      requires forall v: byte :: Fits(md, shape.path[context], v, update)
      ensures var home, node := shape.path[context], context + symbols[context].symbols;
              var c := OldCounts(md, home);
              && Layout() && node < nextSymbol && Trying(home, v, update, node, hit)
              && shape.lo[node] == 0 && Sum(c, 0, 0) == 0 && Sum(c, 0, 256) < TWO16
              && (if hit then Below(c, v, 0) <= code < Below(c, v, 0) + c[v] else code >= Sum(c, 0, 256))
              && hit == (code < Sum(c, 0, 256)) && (hit ==> v == Locate(c, code, 0, 0) && c[v] > 0)
    {
      hide NodeOk, Distinct, AllExclusive, ContextOk, Look, Lengths, Counted, NodeAt, ContextAt, WalkAt;
      var home, c := shape.path[context], OldCounts(md, shape.path[context]);
      BelowEnds(c);
      hit := code < Sum(c, 0, 256);
      v := if hit then Locate(c, code, 0, 0) else 0;
      assert Fits(md, home, v, update);
      WalkStarts(context, v, update);
      TreeRoot(context);
    }

    method TryLeft(node: nat, update: nat, ghost home: Path, ghost v: byte) returns (next: nat)
      requires Layout() && node < nextSymbol && Trying(home, v, update, node, true)
      requires v < symbols[node].value && symbols[node].left != 0
      modifies symbols
      ensures Layout() && node < next < nextSymbol && Trying(home, v, update, next, true)
      ensures shape.lo[next] == shape.lo[node] <= 256
      ensures forall i :: 0 <= i < symbols.Length ==> symbols[i].parent == old(symbols[i].parent)
    {
      next := WalkLeft(node, update, home, v);
      WalkInside(home, v, update, next);
    }

    lemma TryEnds(home: Path, v: byte, update: nat, node: nat)
      requires Trying(home, v, update, node, true)
      ensures Walking(home, v, update, node)
      ensures node < nextSymbol && Node(shape, node) && Home(shape, node) == home
      ensures symbols[node].value == ValueOf(shape, node)
      ensures shape.path[node] == home + [symbols[node].value]
    {
      WalkNode(home, v, update, node);
    }

    /** The root decoder's walk: down to the value's node, or to the node whose missing
        child leaves the gap the code falls in. */
    method RootWalk(context: nat, code: u16, update: nat, ghost v: byte) returns (node: nat, under: u16)
      requires Repr() && context < nextSymbol && symbols[context].symbols != 0
      requires Fits(md, shape.path[context], v, update)
      requires var c := OldCounts(md, shape.path[context]); Below(c, v, 1) <= code < Below(c, v, 1) + c[v] + 1
      requires Sum(OldCounts(md, shape.path[context]), 0, 256) + 256 < TWO16
      modifies symbols
      ensures Walking(shape.path[context], v, update, node)
      ensures node < symbols.Length && under == Sum(OldCounts(md, shape.path[context]), 0, shape.lo[node])
      ensures || v == symbols[node].value
              || (v < symbols[node].value && symbols[node].left == 0)
              || (v > symbols[node].value && symbols[node].right == 0)
      ensures forall i :: 0 <= i < nextSymbol ==> symbols[i].parent == old(symbols[i].parent)
    {
      hide NodeOk, Distinct, AllExclusive, ContextOk, Look, Locate, Sum, Lengths, NodeAt, ContextAt, WalkAt,
        Below, U8, U16, Walking;
      ghost var home, c := shape.path[context], OldCounts(md, shape.path[context]);
      BelowEnds(c);
      under := 0;
      node := context + symbols[context].symbols;
      WalkStarts(context, v, update);
      WalkInside(home, v, update, node);
      while true
        invariant Walking(home, v, update, node)
        invariant Layout() && node < nextSymbol && shape.lo[node] <= 256
        invariant under == Sum(c, 0, shape.lo[node])
        invariant forall i :: 0 <= i < nextSymbol ==> symbols[i].parent == old(symbols[i].parent)
        decreases POOL_SIZE - node
      {
        WalkNode(home, v, update, node);
        NodeDecides(shape, node, symbols[node], c, 1, code, v);
        NodeSums(shape, node, symbols[node], c, v);
        var (after, before) := AfterBefore(symbols[node], under);
        if code >= after && symbols[node].right != 0 {
          under := U16(under + symbols[node].under);
          WalkRight(node, update, home, v);
          node := node + symbols[node].right;
        } else if code < after - before && symbols[node].left != 0 {
          node := WalkLeft(node, update, home, v);
        } else {
          break;
        }
        WalkInside(home, v, update, node);
      }
    }

    /** The two bounds of a node's part of the root's weight, as the decoder computes them. */
    static function AfterBefore(s: Symbol, under: u16): (u16, u16) {
      (U16(under + s.under + (s.value + 1) * CONTEXT_SYMBOL_MINIMUM), U16(s.count + CONTEXT_SYMBOL_MINIMUM))
    }

    /** The value whose part of the root's weight holds `code`, counted once more; a
        value not seen yet is computed from the gap the code falls in. */
    method ContextRootDecode(context: nat, code: u16, update: nat)
      returns (symbol: nat, value: byte, under: u16, count: u16)
      requires Repr() && context < nextSymbol < POOL_SIZE && |shape.path[context]| <= SUBCONTEXT_ORDER
      requires forall v: byte :: Fits(md, shape.path[context], v, update)
      requires code < Sum(OldCounts(md, shape.path[context]), 0, 256) + 256 < TWO16
      modifies symbols, this`md, this`nextSymbol, this`shape
      ensures var c := old(OldCounts(md, shape.path[context]));
              && Below(c, 0, 1) <= code < Below(c, 256, 1)
              && value == Locate(c, code, 1, 0)
              && under == Below(c, value, 1)
              && count == c[value] + 1
              && (if c[value] == 0 then symbol == old(nextSymbol) == nextSymbol - 1 && symbols[symbol].parent == 0
                  else nextSymbol == old(nextSymbol))
      ensures Repr() && md == Counted(old(md), old(shape.path[context]), value, update)
      ensures old(shape.path) <= shape.path
      ensures symbol < nextSymbol && shape.path[symbol] == old(shape.path[context]) + [value]
      ensures forall i :: 0 <= i < old(nextSymbol) ==> symbols[i].parent == old(symbols[i].parent)
    {
      hide NodeOk, Distinct, AllExclusive, ContextOk, Look, Locate, Sum, Lengths, Counted, NodeAt, ContextAt,
        WalkAt, Below, U8, U16, Walking, OldCounts;
      ghost var home, c := shape.path[context], OldCounts(md, shape.path[context]);
      BelowEnds(c);
      ghost var v := Locate(c, code, 1, 0);
      assert Fits(md, home, v, update);
      count := CONTEXT_SYMBOL_MINIMUM;
      if symbols[context].symbols == 0 {
        NoTreeExtends(context, v);
        FirstRootValue(c, code, v);
        value := U8(code / CONTEXT_SYMBOL_MINIMUM);
        under := U16(code - code % CONTEXT_SYMBOL_MINIMUM);
        symbol := TreeCreate(context, value, update);
        return;
      }
      var node;
      node, under := RootWalk(context, code, update, v);
      WalkNode(home, v, update, node);
      NodeDecides(shape, node, symbols[node], c, 1, code, v);
      NodeSums(shape, node, symbols[node], c, v);
      WalkInside(home, v, update, node);
      var (after, before) := AfterBefore(symbols[node], under);
      if code >= after {
        value := U8(symbols[node].value + 1 + (code - after) / CONTEXT_SYMBOL_MINIMUM);
        under := U16(code - (code - after) % CONTEXT_SYMBOL_MINIMUM);
        symbol := WalkCreate(node, value, update, home);
      } else if code < after - before {
        value := U8(symbols[node].value - 1 - (after - before - code - 1) / CONTEXT_SYMBOL_MINIMUM);
        under := U16(code - (after - before - code - 1) % CONTEXT_SYMBOL_MINIMUM);
        symbol := WalkCreate(node, value, update, home);
      } else {
        value := symbols[node].value;
        count := U16(count + symbols[node].count);
        under := U16(after - before);
        symbol := node;
        WalkFound(node, update, home);
      }
    }

    // ----- rescaling a context

    /** A slot of a context's tree whose value lies in part of the value range. */
    ghost predicate InRange(home: Path, lo: nat, hi: nat, i: nat)
      requires Layout()
      reads this
    {
      1 <= i < nextSymbol && Node(shape, i) && Home(shape, i) == home && lo <= ValueOf(shape, i) < hi
    }

    ghost predicate Holds(home: Path, lo: nat, hi: nat, c: Counts)
      requires Layout()
      reads this, symbols
    {
      forall i: nat :: InRange(home, lo, hi, i) ==> NodeOk(shape, i, symbols[i], c)
    }

    /** Only counts and sums of slots in the range may have changed. */
    twostate predicate RescaledOnly(home: Path, lo: nat, hi: nat)
      requires old(Layout()) && Layout()
      reads this, symbols
    {
      && nextSymbol == old(nextSymbol) && shape == old(shape) && md == old(md)
      && (forall i :: 0 <= i < symbols.Length ==>
            symbols[i] == old(symbols[i]).(count := symbols[i].count, under := symbols[i].under))
      && (forall i :: 0 <= i < nextSymbol && !InRange(home, lo, hi, i) ==> symbols[i] == old(symbols[i]))
    }

    /** Halves a node's count and its left subtree's, and sums them up. */
    method RescaleNode(symbol: nat, ghost home: Path, ghost c: Counts)
      requires Layout() && 1 <= symbol < nextSymbol && Node(shape, symbol) && Home(shape, symbol) == home
      requires ShapeOk(shape) && Holds(home, shape.lo[symbol], ValueOf(shape, symbol) + 1, c)
      requires InRange(home, shape.lo[symbol], ValueOf(shape, symbol) + 1, symbol)
      requires Sum(c, 0, 256) < TWO16
      modifies symbols
      ensures Layout() && RescaledOnly(home, shape.lo[symbol], ValueOf(shape, symbol) + 1)
      ensures Holds(home, shape.lo[symbol], ValueOf(shape, symbol) + 1, Halved(c))
      ensures symbols[symbol].under == Sum(Halved(c), shape.lo[symbol], ValueOf(shape, symbol) + 1)
      decreases shape.hi[symbol] - shape.lo[symbol], 0
    {
      hide NodeOk, Distinct, AllExclusive, Sum, Halved, Lengths, U16, ShapeOk;
      ghost var from, w: int, was, h := shape.lo[symbol], ValueOf(shape, symbol), symbols[symbol], Halved(c);
      assert NodeOk(shape, symbol, was, c);
      NodeHalved(shape, symbol, was, c);
      symbols[symbol] := symbols[symbol].(count := symbols[symbol].count - symbols[symbol].count / 2);
      symbols[symbol] := symbols[symbol].(under := symbols[symbol].count);
      if symbols[symbol].left != 0 {
        SelfCovering(shape, symbol + symbols[symbol].left);
        assert Holds(home, from, w, c);
        var left := SymbolRescale(symbol + symbols[symbol].left, home, c);
        symbols[symbol] := symbols[symbol].(under := U16(symbols[symbol].under + left));
      }
      forall i: nat | InRange(home, from, w + 1, i) ensures NodeOk(shape, i, symbols[i], h) {
        if i != symbol {
          if ValueOf(shape, i) == w {
            SameValue(shape, i, symbol);
          } else if was.left == 0 {
            NoNodeIn(shape, i, symbols[i], c, from, w);
          }
        }
      }
    }

    /** Halves the counts of a subtree and recomputes its sums; the result is the
        subtree's new total. */
    method SymbolRescale(first: nat, ghost home: Path, ghost c: Counts) returns (total: u16)
      requires Layout() && 1 <= first < nextSymbol && Node(shape, first) && Home(shape, first) == home
      requires Holds(home, shape.lo[first], shape.hi[first], c)
      requires InRange(home, shape.lo[first], shape.hi[first], first) && shape.hi[first] <= 256
      requires Sum(c, 0, 256) < TWO16
      modifies symbols
      ensures Layout() && RescaledOnly(home, shape.lo[first], shape.hi[first])
      ensures Holds(home, shape.lo[first], shape.hi[first], Halved(c))
      ensures shape.lo[first] <= shape.hi[first] && total == Sum(Halved(c), shape.lo[first], shape.hi[first])
      decreases shape.hi[first] - shape.lo[first], 1
    {
      hide NodeOk, Distinct, AllExclusive, Sum, Halved, Lengths, U16;
      ghost var lo, hi, h := shape.lo[first], shape.hi[first], Halved(c);
      SumSplit(h, lo, lo, lo);
      SumHalved(c, 0, 256);
      total := 0;
      var symbol := first;
      while true
        invariant Layout() && 1 <= symbol < nextSymbol && Node(shape, symbol) && Home(shape, symbol) == home
        invariant lo <= shape.lo[symbol] <= hi == shape.hi[symbol] <= 256
        invariant InRange(home, shape.lo[symbol], hi, symbol)
        invariant Holds(home, shape.lo[symbol], hi, c)
        invariant Holds(home, lo, shape.lo[symbol], h)
        invariant total == Sum(h, lo, shape.lo[symbol])
        invariant RescaledOnly(home, lo, shape.lo[symbol])
        decreases hi - shape.lo[symbol]
      {
        ghost var from, w: int, was := shape.lo[symbol], ValueOf(shape, symbol), symbols[symbol];
        assert NodeOk(shape, symbol, was, c);
        NodeHalved(shape, symbol, was, c);
        RescaleNode(symbol, home, c);
        SumSplit(h, lo, from, w + 1);
        SumPart(h, lo, w + 1);
        total := U16(total + symbols[symbol].under);
        if symbols[symbol].right == 0 {
          forall i: nat | InRange(home, lo, hi, i) ensures InRange(home, lo, w + 1, i) {
            if !InRange(home, lo, w + 1, i) {
              NoNodeIn(shape, i, symbols[i], c, w + 1, hi);
            }
          }
          SumSplit(h, lo, w + 1, hi);
          break;
        }
        symbol := symbol + symbols[symbol].right;
        SelfCovering(shape, symbol);
      }
    }

    lemma NoTreeNodes(context: nat)
      requires Repr() && context < nextSymbol && symbols[context].symbols == 0
      ensures var c := OldCounts(md, shape.path[context]); Sum(c, 0, 256) == 0 == Sum(Halved(c), 0, 256)
      ensures forall i :: 1 <= i < nextSymbol ==> Home(shape, i) != shape.path[context]
    {
      hide Distinct, AllExclusive, Look;
      var home := shape.path[context];
      assert ContextAt(context);
      SumHalved(OldCounts(md, home), 0, 256);
      forall i | 1 <= i < nextSymbol ensures Home(shape, i) != home {
        assert NodeAt(i);
        if Home(shape, i) == home {
          NoNodeIn(shape, i, symbols[i], OldCounts(md, home), 0, 256);
        }
      }
    }

    /** The slots of a whole tree hold its context's counts. */
    lemma TreeHolds(context: nat)
      requires Repr() && context < nextSymbol && symbols[context].symbols != 0
      ensures var first := context + symbols[context].symbols;
              && 1 <= first < nextSymbol && Node(shape, first) && Home(shape, first) == shape.path[context]
              && shape.lo[first] == 0 && shape.hi[first] == 256
              && InRange(shape.path[context], 0, 256, first)
              && Holds(shape.path[context], 0, 256, OldCounts(md, shape.path[context]))
    {
      hide NodeOk;
      var home := shape.path[context];
      assert ContextAt(context);
      assert ChildOf(shape, home, context + symbols[context].symbols, 0, 256);
      forall i: nat | InRange(home, 0, 256, i) ensures NodeOk(shape, i, symbols[i], OldCounts(md, home)) {
        assert NodeAt(i);
      }
    }

    /** Halves a context's counts and escape weight and adds up its total anew. */
    method ContextRescale(context: nat, minimum: Minimum)
      requires Repr() && context < nextSymbol
      requires var st := Look(md, shape.path[context]);
               && Sum(st.counts, 0, 256) < TWO16 && Rescaled(st, minimum).total < TWO16
      modifies symbols, this`md
      ensures Repr()
      ensures md == WithStats(old(md), old(shape.path[context]), Rescaled(old(Look(md, shape.path[context])), minimum))
      ensures forall i :: 0 <= i < nextSymbol ==> symbols[i].parent == old(symbols[i].parent)
    {
      hide NodeOk, Distinct, AllExclusive, Lengths, Look, Sum, Halved;
      ghost var home, md0 := shape.path[context], md;
      ghost var st := Look(md, home);
      assert ContextAt(context);
      SumHalved(st.counts, 0, 256);
      var total := 0;
      if symbols[context].symbols != 0 {
        TreeHolds(context);
        total := SymbolRescale(context + symbols[context].symbols, home, st.counts);
      } else {
        NoTreeNodes(context);
      }
      var escapes := symbols[context].escapes - symbols[context].escapes / 2;
      label rescaled:
      symbols[context] := symbols[context].(escapes := escapes, total := U16(total + escapes + 256 * minimum));
      md := WithStats(md, home, Rescaled(st, minimum));
      forall i | 0 <= i < nextSymbol ensures ContextAt(i) {
        assert old(ContextAt(i));
        WithStatsLook(md0, home, Rescaled(st, minimum), shape.path[i]);
        if i != context {
          SamePath(shape, i, context);
          ContextFields(shape, i, old(symbols[i]), symbols[i], Look(md0, shape.path[i]));
        }
      }
      forall i | 1 <= i < nextSymbol ensures NodeAt(i) {
        SelfCovering(shape, i);
        assert old(NodeAt(i));
        WithStatsLook(md0, home, Rescaled(st, minimum), Home(shape, i));
        if Home(shape, i) == home {
          assert InRange(home, 0, 256, i);
          NodeFields(shape, i, old@rescaled(symbols[i]), symbols[i], Halved(st.counts));
        } else {
          assert !InRange(home, 0, 256, i);
          NodeFields(shape, i, old(symbols[i]), symbols[i], OldCounts(md0, Home(shape, i)));
        }
      }
    }

    /** The weights of a context after one of its values was counted in its tree. */
    method ContextGrow(context: nat, count: u16, minimum: Minimum)
      requires Repr() && context < nextSymbol
      requires var st := Look(md, shape.path[context]);
               && Sum(st.counts, 0, 256) + 256 * minimum < TWO16 - 0x10
               && st.escapes <= st.total < TWO16 - 0x10
               && Grown(st, count, minimum).total < TWO16
      modifies symbols, this`md
      ensures Repr()
      ensures md == WithStats(old(md), old(shape.path[context]),
                              Grown(old(Look(md, shape.path[context])), count, minimum))
      ensures forall i :: 0 <= i < nextSymbol ==> symbols[i].parent == old(symbols[i].parent)
    {
      hide NodeOk, Distinct, AllExclusive, Lengths, Look, Sum, Rescaled;
      ghost var home, md0 := shape.path[context], md;
      ghost var st := Look(md, home);
      assert ContextAt(context);
      var extra := if count <= 0 then SUBCONTEXT_ESCAPE_DELTA else 0;
      symbols[context] := symbols[context].(
        escapes := U16(symbols[context].escapes + extra),
        total := U16(symbols[context].total + extra + Delta(minimum)));
      ghost var wide := st.(escapes := st.escapes + extra, total := st.total + extra + Delta(minimum));
      md := WithStats(md, home, wide);
      forall i | 0 <= i < nextSymbol ensures ContextAt(i) {
        assert old(ContextAt(i));
        WithStatsLook(md0, home, wide, shape.path[i]);
        if i != context {
          SamePath(shape, i, context);
        }
      }
      forall i | 1 <= i < nextSymbol ensures NodeAt(i) {
        assert old(NodeAt(i));
        SelfCovering(shape, i);
        WithStatsLook(md0, home, wide, Home(shape, i));
        NodeFields(shape, i, old(symbols[i]), symbols[i], OldCounts(md0, Home(shape, i)));
      }
      WithStatsLook(md0, home, wide, home);
      if count > 0xFF - 2 * Delta(minimum) + minimum || symbols[context].total > BOTTOM - 0x100 {
        ContextRescale(context, minimum);
        assert md.table == WithStats(md0, home, Rescaled(wide, minimum)).table;
      }
    }

    // ----- linking the slots of one value through the contexts

    method SetParent(slot: nat, parent: nat, ghost except: int)
      requires Repr() && 1 <= slot < nextSymbol && parent < nextSymbol
      requires forall i :: 1 <= i < nextSymbol && i != slot && i != except ==> ParentOk(shape, i, symbols[i])
      requires shape.path[slot] != [] && shape.path[parent] == Shorter(shape.path[slot])
      modifies symbols
      ensures Repr() && Linked(except)
      ensures symbols[slot].parent == parent
      ensures forall i :: 0 <= i < nextSymbol && i != slot ==> symbols[i] == old(symbols[i])
    {
      hide NodeOk, ContextOk, Distinct, AllExclusive, Look;
      symbols[slot] := symbols[slot].(parent := parent);
      forall i | 0 <= i < nextSymbol ensures ContextAt(i) {
        assert old(ContextAt(i));
        ContextFields(shape, i, old(symbols[i]), symbols[i], Look(md, shape.path[i]));
      }
      forall i | 1 <= i < nextSymbol ensures NodeAt(i) {
        assert old(NodeAt(i));
        SelfCovering(shape, i);
        NodeFields(shape, i, old(symbols[i]), symbols[i], OldCounts(md, Home(shape, i)));
      }
      forall i | 1 <= i < nextSymbol && i != except ensures ParentOk(shape, i, symbols[i]) {
        SelfCovering(shape, i);
        assert i != slot ==> old(ParentOk(shape, i, symbols[i]));
      }
    }

    /** The slot `prev` was counted in the next longer context and still lacks its link;
        none was, at the longest one. */
    ghost predicate Pending(prev: int, p: Path, value: byte, hist: Path)
      requires Layout()
      reads this
    {
      if prev < 0 then prev == -1 && p == hist
      else 1 <= prev < nextSymbol && shape.path[prev] != [] && Shorter(shape.path[prev]) == p + [value]
    }

    /** Counts a value in a context's tree and links the slot of the longer context to
        its slot here. */
    method VisitContext(context: nat, value: byte, minimum: Minimum, prev: int, predicted: nat)
      returns (symbol: nat, under: u16, count: u16, next: nat)
      requires Repr() && context < nextSymbol < POOL_SIZE && |shape.path[context]| <= SUBCONTEXT_ORDER
      requires minimum == MinimumOf(shape.path[context]) && Fits(md, shape.path[context], value, Delta(minimum))
      requires Sum(OldCounts(md, shape.path[context]), 0, 256) + 256 * minimum < TWO16
      requires Linked(prev) && (prev >= 0 ==> Pending(prev, shape.path[context], value, shape.path[context]))
      requires -1 <= prev
      modifies symbols, this`md, this`nextSymbol, this`shape
      ensures Repr() && md == Counted(old(md), old(shape.path[context]), value, Delta(minimum))
      ensures var c := old(OldCounts(md, shape.path[context]));
              && under == Below(c, value, minimum)
              && count == c[value] + minimum
              && Linked(if count == 0 then symbol else -1)
      ensures old(shape.path) <= shape.path
      ensures symbol < nextSymbol && shape.path[symbol] == old(shape.path[context]) + [value]
      ensures next == if prev < 0 then symbol else predicted
      ensures forall i :: 0 <= i < old(nextSymbol) && i != prev ==> symbols[i].parent == old(symbols[i].parent)
    {
      hide NodeOk, ContextOk, Distinct, AllExclusive, Look, Counted, Below, Sum, Fits;
      ghost var p := shape.path[context];
      symbol, under, count := ContextEncode(context, value, Delta(minimum), minimum);
      next := if prev < 0 then symbol else predicted;
      ghost var created := symbol == old(nextSymbol);
      ghost var except := if count == 0 then symbol else -1;
      forall i | 1 <= i < nextSymbol && i != prev && i != except ensures ParentOk(shape, i, symbols[i]) {
        SelfCovering(shape, i);
        if i < old(nextSymbol) {
          assert old(ParentOk(shape, i, symbols[i]));
        } else {
          assert shape.path[i] == p + [value] && shape.path[0] == [];
        }
      }
      if prev >= 0 {
        SetParent(prev, symbol, except);
      }
    }

    // ----- one input byte

    /** One context's turn in coding a value: count it, write its code or an escape, and
        update the context's weights. */
    method EncodeContext(context: nat, value: byte, minimum: Minimum, prev: int, predicted: nat,
        low: u32, range: u32, outData: array<byte>, outStart: nat, outEnd: nat)
      returns (ok: bool, hit: bool, symbol: nat, next: nat, encodeLow: u32, encodeRange: u32, out: nat)
      requires Repr() && AllBalanced(md) && context < nextSymbol < POOL_SIZE
      requires |shape.path[context]| <= SUBCONTEXT_ORDER
      requires minimum == MinimumOf(shape.path[context])
      requires Linked(prev) && (prev >= 0 ==> Pending(prev, shape.path[context], value, shape.path[context]))
      requires -1 <= prev
      requires Ready(Interval(low, range)) && outStart <= outEnd <= outData.Length
      modifies symbols, this`md, this`nextSymbol, this`shape, outData
      ensures var st := old(Look(md, shape.path[context]));
              Balanced(st, minimum) &&
              var (bytes, k) := CodeIn(st, value, minimum, Interval(low, range));
              && hit == (st.counts[value] + minimum > 0)
              && ok == (outStart + |bytes| <= outEnd)
              && (ok ==> out == outStart + |bytes| && outData[..out] == old(outData[..outStart]) + bytes
                         && Interval(encodeLow, encodeRange) == k)
      ensures outData[outEnd..] == old(outData[outEnd..])
      ensures ok ==> Repr() && md == Learn(old(md), old(shape.path[context]), value) && AllBalanced(md)
      ensures ok ==> Linked(if hit then -1 else symbol)
      ensures ok ==> old(shape.path) <= shape.path
      ensures ok ==> symbol < nextSymbol && shape.path[symbol] == old(shape.path[context]) + [value]
      ensures ok ==> next == if prev < 0 then symbol else predicted
      ensures ok ==> forall i :: 0 <= i < old(nextSymbol) && i != prev ==> symbols[i].parent == old(symbols[i].parent)
    {
      hide NodeOk, ContextOk, Distinct, AllExclusive, Lengths, Look, Below, Sum, Code, AllBalanced, Counted,
        WithStats, Grown, Learn, Ready;
      ghost var p, md0 := shape.path[context], md;
      ghost var st := Look(md, p);
      BalancedHere(md, p);
      BalancedFits(md, p, value);
      GrownFits(md, p, value);
      GrownIsLearned(md, p, value);
      LearnKeeps(md, p, value);
      assert ContextAt(context);
      ContextWeights(context);
      var under, count;
      symbol, under, count, next := VisitContext(context, value, minimum, prev, predicted);
      CountedHere(md0, p, value, Delta(minimum));
      assert ContextAt(context);
      ContextWeights(context);
      hit := count > 0;
      out, ok, encodeLow, encodeRange := outStart, true, low, range;
      if count > 0 {
        ValueSliceValid(st, value, minimum);
        ok, encodeLow, encodeRange, out :=
          RangeEncode(low, range, symbols[context].escapes + under, count, symbols[context].total,
                      outData, outStart, outEnd);
      } else if symbols[context].escapes > 0 && symbols[context].escapes < symbols[context].total {
        ok, encodeLow, encodeRange, out :=
          RangeEncode(low, range, 0, symbols[context].escapes, symbols[context].total, outData, outStart, outEnd);
      }
      if ok {
        ContextGrow(context, count, minimum);
      }
    }

    lemma ContextWeights(context: nat)
      requires Repr() && context < nextSymbol && ContextAt(context)
      ensures symbols[context].escapes == Look(md, shape.path[context]).escapes
      ensures symbols[context].total == Look(md, shape.path[context]).total
    {
    }

    /** Between two bytes: the pool represents the model, all slots are linked, and
        `predicted` is the slot of the context the next byte is coded in. */
    ghost predicate Standing(predicted: nat)
      reads this, symbols
    {
      && Repr() && Linked(-1) && Healthy(md)
      && predicted < nextSymbol && shape.path[predicted] == md.hist
    }

    /** Following a context's link gives the next shorter context. */
    lemma ParentContext(context: nat, except: int)
      requires Layout() && Linked(except) && context < nextSymbol && context != except && shape.path[context] != []
      ensures symbols[context].parent < nextSymbol
      ensures shape.path[symbols[context].parent] == Shorter(shape.path[context])
    {
      assert ParentOk(shape, context, symbols[context]);
    }

    lemma RootIsFirst(context: nat)
      requires Layout() && context < nextSymbol
      ensures shape.path[context] == [] <==> context == 0
    {
    }

    lemma Assoc(a: seq<byte>, b: seq<byte>, c: seq<byte>)
      ensures (a + b) + c == a + (b + c)
    {
    }

    /** Codes one input byte through the contexts, longest first, until one knows it. */
    method EncodeSymbol(predicted: nat, value: byte, low: u32, range: u32, outData: array<byte>, outStart: nat,
        outEnd: nat)
      returns (ok: bool, next: nat, encodeLow: u32, encodeRange: u32, out: nat)
      requires Standing(predicted) && Ready(Interval(low, range)) && outStart <= outEnd <= outData.Length
      modifies symbols, this`md, this`nextSymbol, this`shape, outData
      ensures AllBalanced(old(md))
      ensures var e := EncodeValue(old(md), old(md.hist), value, Interval(low, range));
              && ok == (outStart + |e.bytes| <= outEnd)
              && (ok ==> out == outStart + |e.bytes| && outData[..out] == old(outData[..outStart]) + e.bytes
                         && Interval(encodeLow, encodeRange) == e.i && md == e.md)
      ensures outData[outEnd..] == old(outData[outEnd..])
      ensures ok ==> Repr() && Linked(-1) && next < nextSymbol && shape.path[next] == old(md.hist) + [value]
    {
      hide NodeAt, ContextAt, NodeOk, ContextOk, ShapeOk, Look, AllBalanced, Learn, Ready, CodeIn, EncodeValue,
        ParentOk, Healthy, Standing;
      StandingHealthy(predicted);
      ghost var hist, whole := md.hist, EncodeValue(md, md.hist, value, Interval(low, range));
      next, encodeLow, encodeRange, out := predicted, low, range, outStart;
      var prev: int := -1;
      var hit, symbol := false, 0;
      var subcontext: nat := predicted;
      while subcontext != 0
        invariant Layout() && Repr() && AllBalanced(md) && md.hist == hist && |hist| <= SUBCONTEXT_ORDER
        invariant subcontext < nextSymbol && |shape.path[subcontext]| <= |hist|
        invariant md.used + |shape.path[subcontext]| < POOL_SIZE
        invariant -1 <= prev && Pending(prev, shape.path[subcontext], value, hist) && Linked(prev)
        invariant prev >= 0 ==> next < nextSymbol && shape.path[next] == hist + [value]
        invariant Ready(Interval(encodeLow, encodeRange)) && out <= outEnd
        invariant outData[outEnd..] == old(outData[outEnd..])
        invariant var e := EncodeValue(md, shape.path[subcontext], value, Interval(encodeLow, encodeRange));
                  && e.md == whole.md && e.i == whole.i
                  && out + |e.bytes| == outStart + |whole.bytes|
                  && outData[..out] + e.bytes == old(outData[..outStart]) + whole.bytes
        decreases |shape.path[subcontext]|
      {
        ghost var p, i := shape.path[subcontext], Interval(encodeLow, encodeRange);
        EncodeStep(md, p, value, i);
        LearnUsed(md, p, value);
        RootIsFirst(subcontext);
        ghost var (bytes, k) := CodeIn(Look(md, p), value, 0, i);
        Assoc(outData[..out], bytes, EncodeValue(Learn(md, p, value), Shorter(p), value, k).bytes);
        ok, hit, symbol, next, encodeLow, encodeRange, out :=
          EncodeContext(subcontext, value, 0, prev, next, encodeLow, encodeRange, outData, out, outEnd);
        if !ok || hit {
          return;
        }
        prev := symbol;
        assert Shorter(p + [value]) == Shorter(p) + [value];
        RootIsFirst(symbol);
        ParentContext(subcontext, prev);
        subcontext := symbols[subcontext].parent;
      }
      RootIsFirst(0);
      EncodeStep(md, [], value, Interval(encodeLow, encodeRange));
      LearnUsed(md, [], value);
      ok, hit, symbol, next, encodeLow, encodeRange, out :=
        EncodeContext(0, value, CONTEXT_SYMBOL_MINIMUM, prev, next, encodeLow, encodeRange, outData, out, outEnd);
    }

    /** An empty model: the first slot is the root context. */
    method CreateRoot()
      requires symbols.Length == POOL_SIZE
      modifies symbols, this
      ensures Standing(0) && md == INITIAL
    {
      nextSymbol, shape, md := 0, Shape([], [], []), INITIAL;
      var root := SymbolCreate(0, 0, [], 0, 0);
      symbols[root] := symbols[root].(escapes := 1, total := 1 + 256 * CONTEXT_SYMBOL_MINIMUM, symbols := 0);
      SumZero(NoCounts(), 0, 256);
      InitialHealthy();
    }

    /** Moving on to the next byte: the history keeps its last bytes, and a nearly full
        pool starts afresh. */
    method NextContext(predicted: nat, order: nat, value: byte) returns (next: nat, nextOrder: nat)
      requires Repr() && Linked(-1) && AllBalanced(md) && order == |md.hist| <= SUBCONTEXT_ORDER
      requires predicted < nextSymbol && shape.path[predicted] == md.hist + [value]
      modifies symbols, this
      ensures Standing(next) && md == Advance(old(md), value) && nextOrder == |md.hist|
    {
      hide NodeAt, ContextAt, NodeOk, ContextOk, ShapeOk, Look, ParentOk, BalancedAt;
      AdvanceHealthy(md, value);
      next, nextOrder := predicted, order;
      if order >= SUBCONTEXT_ORDER {
        ParentContext(predicted, -1);
        next := symbols[predicted].parent;
      } else {
        nextOrder := order + 1;
      }
      if nextSymbol >= POOL_SIZE - SUBCONTEXT_ORDER {
        CreateRoot();
        next, nextOrder := 0, 0;
      } else {
        SetHistory(Advance(md, value));
      }
    }

    /** The pool does not depend on the history. */
    ghost method SetHistory(other: Model)
      requires Repr() && Linked(-1) && other.table == md.table && other.used == md.used
      modifies this`md
      ensures Repr() && Linked(-1) && md == other
    {
      hide NodeOk, ContextOk, Look, ParentOk, Distinct, AllExclusive;
      ghost var md0 := md;
      md := other;
      forall i | 0 <= i < nextSymbol ensures ContextAt(i) {
        assert old(ContextAt(i));
        SameTable(md0, md, shape.path[i]);
      }
      forall i | 1 <= i < nextSymbol ensures NodeAt(i) {
        assert old(NodeAt(i));
        SameTable(md0, md, Home(shape, i));
      }
    }

    lemma SameTable(a: Model, b: Model, p: Path)
      requires a.table == b.table
      ensures Look(a, p) == Look(b, p)
    {
    }

    /** One turn of the compressor's loop: code a byte and move on. Whatever follows it,
        what is written and what is still to be written stay the same stream. */
    method CompressByte(predicted: nat, order: nat, value: byte, low: u32, range: u32,
        outData: array<byte>, outStart: nat, outEnd: nat, ghost rest: seq<byte>)
      returns (ok: bool, next: nat, nextOrder: nat, encodeLow: u32, encodeRange: u32, out: nat)
      requires Standing(predicted) && order == |md.hist| && Ready(Interval(low, range))
      requires outStart <= outEnd <= outData.Length
      modifies symbols, this, outData
      ensures Healthy(old(md))
      ensures var stream := Encode(old(md), [value] + rest, Interval(low, range));
              if ok then
                && Standing(next) && nextOrder == |md.hist| && Healthy(md) && Ready(Interval(encodeLow, encodeRange))
                && out <= outEnd
                && outData[..out] + Encode(md, rest, Interval(encodeLow, encodeRange))
                == old(outData[..outStart]) + stream
              else outStart + |stream| > outEnd
      ensures outData[outEnd..] == old(outData[outEnd..])
    {
      hide Standing, Healthy, Encode, EncodeValue, Advance, Ready, AllBalanced, Linked, Layout;
      StandingHealthy(predicted);
      EncodeNext(md, [value] + rest, Interval(low, range));
      ghost var e := EncodeValue(md, md.hist, value, Interval(low, range));
      assert ([value] + rest)[1..] == rest;
      next, nextOrder := predicted, order;
      ok, next, encodeLow, encodeRange, out := EncodeSymbol(predicted, value, low, range, outData, outStart, outEnd);
      if ok {
        next, nextOrder := NextContext(next, order, value);
        StandingHealthy(next);
        Assoc(old(outData[..outStart]), e.bytes, Encode(md, rest, e.i));
      }
    }

    /** Compresses the buffers' bytes into the output buffer and returns how many bytes
        that took, or 0 if there is nothing to do or they do not fit. */
    method Compress(inBuffers: seq<seq<byte>>, inLimit: nat, outData: array<byte>, outLimit: nat) returns (n: nat)
      requires symbols.Length == POOL_SIZE && outLimit <= outData.Length
      requires forall b :: 1 <= b < |inBuffers| ==> inBuffers[b] != []
      modifies symbols, this, outData
      ensures var stream := Stream(Concat(inBuffers));
              && n == (if |inBuffers| > 0 && inLimit > 0 && |stream| <= outLimit then |stream| else 0)
              && (n > 0 ==> outData[..n] == stream)
      ensures outData[outLimit..] == old(outData[outLimit..])
    {
      hide Standing, Healthy, Encode, Ready, Stream, Concat, Flush;
      if |inBuffers| <= 0 || inLimit <= 0 {
        return 0;
      }
      var inData, inPos, buffer := inBuffers[0], 0, 1;
      BuffersStart(inBuffers);
      CreateRoot();
      StandingHealthy(0);
      StreamStarts(Concat(inBuffers));
      var low: u32, range: u32 := 0, 0xFFFF_FFFF;
      var out: nat, predicted: nat, order: nat, ok := 0, 0, 0, true;
      ghost var rest := Concat(inBuffers);
      while true
        invariant inPos <= |inData| && 1 <= buffer <= |inBuffers|
        invariant rest == inData[inPos..] + Concat(inBuffers[buffer..])
        invariant Standing(predicted) && order == |md.hist| && Healthy(md) && Ready(Interval(low, range))
        invariant out <= outLimit
        invariant outData[..out] + Encode(md, rest, Interval(low, range)) == Stream(Concat(inBuffers))
        invariant outData[outLimit..] == old(outData[outLimit..])
        decreases |inBuffers| - buffer, |inData| - inPos
      {
        if inPos >= |inData| {
          BuffersNext(inData, inBuffers[buffer..]);
          if buffer >= |inBuffers| {
            break;
          }
          inData, inPos := inBuffers[buffer], 0;
          buffer := buffer + 1;
        }
        var value := inData[inPos];
        TakeByte(inData, inPos, Concat(inBuffers[buffer..]));
        inPos := inPos + 1;
        rest := inData[inPos..] + Concat(inBuffers[buffer..]);
        ok, predicted, order, low, range, out :=
          CompressByte(predicted, order, value, low, range, outData, out, outLimit, rest);
        if !ok {
          return 0;
        }
      }
      EncodeLast(md, Interval(low, range));
      ok, out := RangeFlush(low, outData, out, outLimit);
      if !ok {
        return 0;
      }
      return out;
    }

    // ----- one output byte

    /** Counts a decoded value in one of the contexts that did not know it. */
    method PatchContext(patch: nat, value: byte, prev: int, predicted: nat) returns (symbol: nat, next: nat)
      requires Repr() && AllBalanced(md) && patch < nextSymbol < POOL_SIZE && |shape.path[patch]| <= SUBCONTEXT_ORDER
      requires shape.path[patch] != []
      requires Linked(prev) && (prev >= 0 ==> Pending(prev, shape.path[patch], value, shape.path[patch]))
      requires -1 <= prev
      modifies symbols, this`md, this`nextSymbol, this`shape
      ensures Repr() && md == Learn(old(md), old(shape.path[patch]), value) && AllBalanced(md)
      ensures Linked(symbol)
      ensures old(shape.path) <= shape.path
      ensures symbol < nextSymbol && shape.path[symbol] == old(shape.path[patch]) + [value]
      ensures next == if prev < 0 then symbol else predicted
      ensures forall i :: 0 <= i < old(nextSymbol) && i != prev ==> symbols[i].parent == old(symbols[i].parent)
    {
      hide NodeOk, ContextOk, Distinct, AllExclusive, Lengths, Look, Below, Sum, AllBalanced, Counted,
        WithStats, Grown, Learn;
      ghost var p, md0 := shape.path[patch], md;
      BalancedHere(md, p);
      BalancedFits(md, p, value);
      GrownFits(md, p, value);
      GrownIsLearned(md, p, value);
      LearnKeeps(md, p, value);
      var under, count;
      symbol, under, count, next := VisitContext(patch, value, 0, prev, predicted);
      CountedHere(md0, p, value, Delta(0));
      ContextGrow(patch, count, 0);
    }

    /** Counts a decoded value in the contexts it was escaped from and links all its
        slots, down to the slot `bottom` of the context that knew it. */
    method PatchContexts(predicted: nat, subcontext: nat, value: byte, bottom: nat) returns (next: nat)
      requires Repr() && Linked(-1) && AllBalanced(md) && |md.hist| <= SUBCONTEXT_ORDER
      requires predicted < nextSymbol && shape.path[predicted] == md.hist
      requires subcontext < nextSymbol && md.used + |md.hist| - |shape.path[subcontext]| <= POOL_SIZE
      requires Ends(md.hist, shape.path[subcontext])
      requires bottom < nextSymbol && shape.path[bottom] == shape.path[subcontext] + [value]
      modifies symbols, this`md, this`nextSymbol, this`shape
      ensures Repr() && Linked(-1) && md == Patch(old(md), old(md.hist), old(shape.path[subcontext]), value)
      ensures next < nextSymbol && shape.path[next] == old(md.hist) + [value]
    {
      hide NodeAt, ContextAt, NodeOk, ContextOk, ShapeOk, Look, AllBalanced, Learn, ParentOk, Ends;
      ghost var hist, stop, md0 := md.hist, shape.path[subcontext], md;
      next := predicted;
      var prev: int := -1;
      var patch: nat := predicted;
      PathIsSlot(patch, subcontext);
      while patch != subcontext
        invariant Layout() && Repr() && AllBalanced(md) && md.hist == hist
        invariant patch < nextSymbol && subcontext < nextSymbol && shape.path[subcontext] == stop
        invariant |shape.path[patch]| <= |hist| && Ends(shape.path[patch], stop)
        invariant patch == subcontext <==> shape.path[patch] == stop
        invariant md.used + |shape.path[patch]| - |stop| <= POOL_SIZE
        invariant -1 <= prev && Pending(prev, shape.path[patch], value, hist) && Linked(prev)
        invariant prev >= 0 ==> next < nextSymbol && shape.path[next] == hist + [value]
        invariant bottom < nextSymbol && shape.path[bottom] == stop + [value]
        invariant Patch(md0, hist, stop, value) == Patch(md, shape.path[patch], stop, value)
        decreases |shape.path[patch]|
      {
        ghost var p := shape.path[patch];
        EndsShorter(p, stop);
        LearnKeeps(md, p, value);
        LearnUsed(md, p, value);
        var symbol;
        symbol, next := PatchContext(patch, value, prev, next);
        prev := symbol;
        assert Shorter(p + [value]) == Shorter(p) + [value];
        RootIsFirst(symbol);
        ParentContext(patch, prev);
        patch := symbols[patch].parent;
        PathIsSlot(patch, subcontext);
      }
      if prev < 0 {
        next := bottom;
      } else {
        SetParent(prev, bottom, -1);
      }
    }

    /** Different slots stand for different paths. */
    lemma PathIsSlot(i: nat, j: nat)
      requires Layout() && i < nextSymbol && j < nextSymbol
      ensures i == j <==> shape.path[i] == shape.path[j]
    {
    }

    /** The context that knows the value counts it and grows; afterwards its slot links
        are as before. */
    method SettleContext(context: nat, count: u16, minimum: Minimum, ghost before: Model, ghost value: byte)
      requires Repr() && Linked(-1) && AllBalanced(before) && context < nextSymbol
      requires minimum == MinimumOf(shape.path[context])
      requires md == Counted(before, shape.path[context], value, Delta(minimum))
      requires count == OldCounts(before, shape.path[context])[value] + minimum
      modifies symbols, this`md
      ensures Repr() && Linked(-1) && md == Learn(before, shape.path[context], value) && AllBalanced(md)
    {
      hide NodeOk, ContextOk, Distinct, AllExclusive, Look, Below, Sum, AllBalanced, Counted, WithStats, Grown, Learn;
      ghost var p := shape.path[context];
      BalancedHere(before, p);
      BalancedFits(before, p, value);
      GrownFits(before, p, value);
      GrownIsLearned(before, p, value);
      LearnKeeps(before, p, value);
      CountedHere(before, p, value, Delta(minimum));
      ContextGrow(context, count, minimum);
      forall i | 1 <= i < nextSymbol ensures ParentOk(shape, i, symbols[i]) {
        assert old(ParentOk(shape, i, symbols[i]));
      }
    }

    /** What reading one code found. */
    ghost predicate Found(d: Decoded, subcontext: nat, bottom: nat, value: byte, decodeLow: u32, decodeRange: u32,
        rest: seq<byte>, before: Model)
      requires Layout()
      reads this
    {
      && d == Value(value, (if subcontext < nextSymbol then shape.path[subcontext] else []),
                    Interval(decodeLow, decodeRange), rest)
      && subcontext < nextSymbol && bottom < nextSymbol
      && shape.path[bottom] == shape.path[subcontext] + [value]
      && md == Learn(before, shape.path[subcontext], value)
    }

    /** Decodes a value a subcontext knows: `code` is past its escapes. */
    method DecodeKnown(subcontext: nat, code: u16, low: u32, quotient: u32, ghost range: u32,
        decodeCode: u32, inData: seq<byte>, inStart: nat, ghost shifts: nat)
      returns (found: bool, value: byte, bottom: nat, decodeLow: u32, decodeRange: u32, nextCode: u32, inPos: nat,
               ghost shifted: nat)
      requires Repr() && Linked(-1) && AllBalanced(md) && subcontext < nextSymbol < POOL_SIZE
      requires |shape.path[subcontext]| <= SUBCONTEXT_ORDER
      requires shape.path[subcontext] != [] && EscapeCoded(Look(md, shape.path[subcontext]))
      requires Ready(Interval(low, range)) && Reading(inData, shifts, decodeCode, inStart)
      requires var st := Look(md, shape.path[subcontext]);
               && 1 <= st.total < BOTTOM && quotient == range / st.total
               && st.escapes <= code == Read(Interval(low, range), st.total, decodeCode)
      modifies symbols, this`md
      ensures AllBalanced(old(md))
      ensures Layout()
      ensures var d := DecodeValue(old(md), old(shape.path[subcontext]), Interval(low, range), Drop(inData, shifts));
              if found then
                && Found(d, subcontext, bottom, value, decodeLow, decodeRange, Drop(inData, shifted), old(md))
                && Repr() && Linked(-1) && AllBalanced(md) && Reading(inData, shifted, nextCode, inPos)
              else d == DeadEnd
    {
      hide NodeOk, ContextOk, Distinct, AllExclusive, Look, Below, Sum, AllBalanced, Counted, Learn, Locate,
        Read, Take, Code, Window;
      ghost var p, md0 := shape.path[subcontext], md;
      ghost var st := Look(md, p);
      BalancedHere(md, p);
      AllFit(md, p);
      BelowEnds(st.counts);
      DecodeStep(md, p, Interval(low, range), Drop(inData, shifts));
      ReadingWindow(inData, shifts, decodeCode, inStart);
      assert ContextAt(subcontext);
      ContextWeights(subcontext);
      var under, count;
      var escapes := symbols[subcontext].escapes;
      found, bottom, value, under, count :=
        ContextTryDecode(subcontext, code - symbols[subcontext].escapes, SUBCONTEXT_SYMBOL_DELTA);
      decodeLow, decodeRange, nextCode, inPos, shifted := low, quotient, decodeCode, inStart, shifts;
      if !found {
        return;
      }
      forall i | 1 <= i < nextSymbol ensures ParentOk(shape, i, symbols[i]) {
        assert old(ParentOk(shape, i, symbols[i]));
      }
      CountedHere(md0, p, value, Delta(0));
      assert ContextAt(subcontext);
      ContextWeights(subcontext);
      decodeLow, decodeRange, nextCode, inPos, shifted :=
        RangeDecode(low, quotient, symbols[subcontext].escapes + under, count, Interval(low, range),
                    ValueSlice(st, value, 0),
          decodeCode, inData, inStart, shifts);
      SettleContext(subcontext, count, 0, md0, value);
    }

    /** Decodes a value in the root, which knows every value. */
    method DecodeRoot(code: u16, low: u32, quotient: u32, ghost range: u32,
        decodeCode: u32, inData: seq<byte>, inStart: nat, ghost shifts: nat)
      returns (value: byte, bottom: nat, decodeLow: u32, decodeRange: u32, nextCode: u32, inPos: nat,
               ghost shifted: nat)
      requires Repr() && Linked(-1) && AllBalanced(md) && nextSymbol < POOL_SIZE
      requires Ready(Interval(low, range)) && Reading(inData, shifts, decodeCode, inStart)
      requires var st := Look(md, []);
               && 1 <= st.total < BOTTOM && quotient == range / st.total
               && st.escapes <= code == Read(Interval(low, range), st.total, decodeCode) < st.total
      modifies symbols, this`md, this`nextSymbol, this`shape
      ensures AllBalanced(old(md))
      ensures Layout() && Repr() && Linked(-1) && AllBalanced(md) && Reading(inData, shifted, nextCode, inPos)
      ensures old(shape.path) <= shape.path
      ensures Found(DecodeValue(old(md), [], Interval(low, range), Drop(inData, shifts)), 0, bottom, value, decodeLow,
                    decodeRange, Drop(inData, shifted), old(md))
    {
      hide NodeOk, ContextOk, Distinct, AllExclusive, Look, Below, Sum, AllBalanced, Counted, Learn, Locate,
        Read, Take, Code, Window;
      ghost var md0 := md;
      ghost var st := Look(md, []);
      RootIsFirst(0);
      BalancedHere(md, []);
      AllFit(md, []);
      BelowEnds(st.counts);
      DecodeStep(md, [], Interval(low, range), Drop(inData, shifts));
      ReadingWindow(inData, shifts, decodeCode, inStart);
      assert ContextAt(0);
      ContextWeights(0);
      var under, count;
      bottom, value, under, count := ContextRootDecode(0, code - symbols[0].escapes, SYMBOL_DELTA);
      forall i | 1 <= i < nextSymbol ensures ParentOk(shape, i, symbols[i]) {
        SelfCovering(shape, i);
        if i < old(nextSymbol) {
          assert old(ParentOk(shape, i, symbols[i]));
        } else {
          assert shape.path[i] == [value] && shape.path[0] == [];
        }
      }
      CountedHere(md0, [], value, Delta(1));
      assert ContextAt(0);
      ContextWeights(0);
      decodeLow, decodeRange, nextCode, inPos, shifted :=
        RangeDecode(low, quotient, symbols[0].escapes + under, count, Interval(low, range), ValueSlice(st, value, 1),
          decodeCode, inData, inStart, shifts);
      SettleContext(0, count, 1, md0, value);
    }

    /** One context below the root: skip it, read its escape, or read a value it knows. */
    method DecodeInContext(subcontext: nat, low: u32, range: u32, code: u32, inData: seq<byte>, inStart: nat,
        ghost shifts: nat)
      returns (decided: bool, found: bool, value: byte, bottom: nat,
        decodeLow: u32, decodeRange: u32, decodeCode: u32, inPos: nat, ghost shifted: nat)
      requires Repr() && Linked(-1) && AllBalanced(md) && subcontext < nextSymbol < POOL_SIZE
      requires |shape.path[subcontext]| <= SUBCONTEXT_ORDER
      requires shape.path[subcontext] != [] && Ready(Interval(low, range)) && Reading(inData, shifts, code, inStart)
      modifies symbols, this`md
      ensures AllBalanced(old(md)) && Layout()
      ensures var p := old(shape.path[subcontext]);
              var d := DecodeValue(old(md), p, Interval(low, range), Drop(inData, shifts));
              if !decided then
                && md == old(md) && Repr() && Linked(-1)
                && Ready(Interval(decodeLow, decodeRange)) && Reading(inData, shifted, decodeCode, inPos)
                && d == DecodeValue(md, Shorter(p), Interval(decodeLow, decodeRange), Drop(inData, shifted))
              else if found then
                && Found(d, subcontext, bottom, value, decodeLow, decodeRange, Drop(inData, shifted), old(md))
                && Repr() && Linked(-1) && AllBalanced(md) && Reading(inData, shifted, decodeCode, inPos)
              else d == DeadEnd
    {
      hide NodeAt, ContextAt, NodeOk, ContextOk, ShapeOk, AllBalanced, Learn, Ready, DecodeValue, ParentOk,
        Read, Take, Window, Balanced, Look, Found, Reading, Drop;
      ghost var p, i := shape.path[subcontext], Interval(low, range);
      WeightsHere(subcontext);
      DecodeStep(md, p, i, Drop(inData, shifts));
      ReadingWindow(inData, shifts, code, inStart);
      decodeLow, decodeRange, decodeCode, inPos, shifted := low, range, code, inStart, shifts;
      value, bottom, decided, found := 0, 0, false, false;
      if symbols[subcontext].escapes <= 0 || symbols[subcontext].escapes >= symbols[subcontext].total {
        return;
      }
      var quotient := range / symbols[subcontext].total;
      var part := RangeRead(code, low, range, symbols[subcontext].total);
      if part < symbols[subcontext].escapes {
        EscapeSliceValid(Look(md, p));
        decodeLow, decodeRange, decodeCode, inPos, shifted :=
          RangeDecode(low, quotient, 0, symbols[subcontext].escapes, i, EscapeSlice(Look(md, p)), code, inData,
                      inStart, shifts);
        return;
      }
      decided := true;
      found, value, bottom, decodeLow, decodeRange, decodeCode, inPos, shifted :=
        DecodeKnown(subcontext, part, low, quotient, range, code, inData, inStart, shifts);
    }

    /** The root: the end of the data, or a value. */
    method DecodeInRoot(low: u32, range: u32, code: u32, inData: seq<byte>, inStart: nat, ghost shifts: nat)
      returns (verdict: Verdict, value: byte, bottom: nat,
        decodeLow: u32, decodeRange: u32, decodeCode: u32, inPos: nat, ghost shifted: nat)
      requires Repr() && Linked(-1) && AllBalanced(md) && 0 < nextSymbol < POOL_SIZE
      requires Ready(Interval(low, range)) && Reading(inData, shifts, code, inStart)
      modifies symbols, this`md, this`nextSymbol, this`shape
      ensures AllBalanced(old(md)) && Layout()
      ensures var d := DecodeValue(old(md), [], Interval(low, range), Drop(inData, shifts));
              match verdict
              case EndOfData => d == End
              case NoSuchCode => false
              case PastTheTotal => d == Garbled
              case KnownValue =>
                && Found(d, 0, bottom, value, decodeLow, decodeRange, Drop(inData, shifted), old(md))
                && Repr() && Linked(-1) && AllBalanced(md) && Reading(inData, shifted, decodeCode, inPos)
                && old(shape.path) <= shape.path
    {
      hide NodeAt, ContextAt, NodeOk, ContextOk, ShapeOk, AllBalanced, Learn, Ready, DecodeValue, ParentOk,
        Read, Take, Window, Balanced, Look, Found, Reading, Drop;
      RootIsFirst(0);
      WeightsHere(0);
      RootVerdict(md, Interval(low, range), Drop(inData, shifts));
      ReadingWindow(inData, shifts, code, inStart);
      decodeLow, decodeRange, decodeCode, inPos, shifted := low, range, code, inStart, shifts;
      value, bottom := 0, 0;
      var quotient := range / symbols[0].total;
      var part := RangeRead(code, low, range, symbols[0].total);
      if part < symbols[0].escapes {
        verdict := EndOfData;
      } else if part >= symbols[0].total {
        verdict := PastTheTotal;
      } else {
        value, bottom, decodeLow, decodeRange, decodeCode, inPos, shifted :=
          DecodeRoot(part, low, quotient, range, code, inData, inStart, shifts);
        verdict := KnownValue;
      }
    }

    /** What reading in the root comes to. */
    lemma RootVerdict(md: Model, i: Interval, stream: seq<byte>)
      requires AllBalanced(md) && Ready(i)
      ensures var st := Look(md, []);
              && Balanced(st, 1) && 1 <= st.total < BOTTOM
              && var code := Read(i, st.total, Window(stream));
              && (code < st.escapes ==> DecodeValue(md, [], i, stream) == End)
              && (code >= st.total ==> DecodeValue(md, [], i, stream) == Garbled)
    {
      hide Read, Window, Look, Take, Locate, Balanced, AllBalanced, DecodeValue;
      DecodeStep(md, [], i, stream);
    }

    /** Reads one value: through the contexts, longest first, skipping those whose escape
        is not written, until one knows the code or the root reads the end. */
    method DecodeSymbol(predicted: nat, low: u32, range: u32, code: u32, inData: seq<byte>, inStart: nat,
        ghost shifts: nat)
      returns (verdict: Verdict, value: byte, subcontext: nat, bottom: nat,
        decodeLow: u32, decodeRange: u32, decodeCode: u32, inPos: nat, ghost shifted: nat)
      requires Standing(predicted) && Ready(Interval(low, range)) && Reading(inData, shifts, code, inStart)
      modifies symbols, this`md, this`nextSymbol, this`shape
      ensures AllBalanced(old(md)) && Layout()
      ensures var d := DecodeValue(old(md), old(md.hist), Interval(low, range), Drop(inData, shifts));
              match verdict
              case EndOfData => d == End
              case NoSuchCode => d == DeadEnd
              case PastTheTotal => d == Garbled
              case KnownValue =>
                && Found(d, subcontext, bottom, value, decodeLow, decodeRange, Drop(inData, shifted), old(md))
                && Repr() && Linked(-1) && AllBalanced(md) && Reading(inData, shifted, decodeCode, inPos)
                && old(shape.path) <= shape.path
    {
      hide NodeAt, ContextAt, NodeOk, ContextOk, ShapeOk, AllBalanced, Learn, Ready, DecodeValue, ParentOk,
        Read, Take, Window, Balanced, Look, Found, Reading, Drop, Healthy, Standing, Linked;
      StandingHealthy(predicted);
      ghost var hist, md0 := md.hist, md;
      decodeLow, decodeRange, decodeCode, inPos, shifted := low, range, code, inStart, shifts;
      subcontext := predicted;
      while subcontext != 0
        invariant Layout() && Repr() && AllBalanced(md) && md == md0 && Linked(-1) && shape == old(shape)
        invariant subcontext < nextSymbol < POOL_SIZE && |shape.path[subcontext]| <= |hist| <= SUBCONTEXT_ORDER
        invariant Ready(Interval(decodeLow, decodeRange)) && Reading(inData, shifted, decodeCode, inPos)
        invariant DecodeValue(md, shape.path[subcontext], Interval(decodeLow, decodeRange), Drop(inData, shifted))
                  == DecodeValue(md0, hist, Interval(low, range), Drop(inData, shifts))
        decreases |shape.path[subcontext]|
      {
        RootIsFirst(subcontext);
        var decided, found;
        decided, found, value, bottom, decodeLow, decodeRange, decodeCode, inPos, shifted :=
          DecodeInContext(subcontext, decodeLow, decodeRange, decodeCode, inData, inPos, shifted);
        if decided {
          verdict := if found then KnownValue else NoSuchCode;
          return;
        }
        ParentContext(subcontext, -1);
        subcontext := symbols[subcontext].parent;
      }
      RootIsFirst(0);
      verdict, value, bottom, decodeLow, decodeRange, decodeCode, inPos, shifted :=
        DecodeInRoot(decodeLow, decodeRange, decodeCode, inData, inPos, shifted);
    }

    lemma WeightsHere(context: nat)
      requires Repr() && context < nextSymbol
      ensures symbols[context].escapes == Look(md, shape.path[context]).escapes
      ensures symbols[context].total == Look(md, shape.path[context]).total
    {
      assert ContextAt(context);
    }

    /** Reads one value and teaches it to all the contexts it was looked up in. */
    method DecodeByte(predicted: nat, low: u32, range: u32, code: u32, inData: seq<byte>, inStart: nat,
        ghost shifts: nat)
      returns (verdict: Verdict, value: byte, next: nat,
        decodeLow: u32, decodeRange: u32, decodeCode: u32, inPos: nat, ghost shifted: nat)
      requires Standing(predicted) && Ready(Interval(low, range)) && Reading(inData, shifts, code, inStart)
      modifies symbols, this`md, this`nextSymbol, this`shape
      ensures AllBalanced(old(md)) && Layout()
      ensures match DecodeValue(old(md), old(md.hist), Interval(low, range), Drop(inData, shifts))
              case End => verdict == EndOfData
              case DeadEnd => verdict == NoSuchCode
              case Garbled => verdict == PastTheTotal
              case Value(v, stop, k, rest) =>
                && verdict == KnownValue && value == v
                && k == Interval(decodeLow, decodeRange) && rest == Drop(inData, shifted)
                && Reading(inData, shifted, decodeCode, inPos)
                && Repr() && Linked(-1) && AllBalanced(md) && |md.hist| <= SUBCONTEXT_ORDER
                && Ends(old(md.hist), stop) && md == LearnDecoded(old(md), stop, v)
                && next < nextSymbol && shape.path[next] == md.hist + [value]
    {
      hide NodeAt, ContextAt, NodeOk, ContextOk, ShapeOk, Healthy, AllBalanced, Learn, Ready, DecodeValue,
        ParentOk, Window, Look, Reading, Patch;
      StandingHealthy(predicted);
      next := predicted;
      var subcontext, bottom;
      ghost var md0 := md;
      verdict, value, subcontext, bottom, decodeLow, decodeRange, decodeCode, inPos, shifted :=
        DecodeSymbol(predicted, low, range, code, inData, inStart, shifts);
      if verdict == KnownValue {
        LearnUsed(md0, shape.path[subcontext], value);
        next := PatchContexts(predicted, subcontext, value, bottom);
      }
    }

    /** One turn of the decompressor's loop: read a byte, write it, move on. */
    method DecompressByte(predicted: nat, order: nat, low: u32, range: u32, code: u32, inData: seq<byte>,
        inStart: nat, ghost shifts: nat,
        outData: array<byte>, outStart: nat, outEnd: nat)
      returns (verdict: Verdict, room: bool, next: nat, nextOrder: nat,
        decodeLow: u32, decodeRange: u32, decodeCode: u32, inPos: nat, ghost shifted: nat, out: nat)
      requires Standing(predicted) && order == |md.hist| && Ready(Interval(low, range))
      requires Reading(inData, shifts, code, inStart)
      requires outStart <= outEnd <= outData.Length
      modifies symbols, this, outData
      ensures Healthy(old(md)) && Layout()
      ensures outData[outEnd..] == old(outData[outEnd..])
      ensures var o := Decode(old(md), Interval(low, range), Drop(inData, shifts), outEnd - outStart);
              match verdict
              case EndOfData => o == Output([]) && out == outStart && outData[..outStart] == old(outData[..outStart])
              case NoSuchCode => o == Rejected
              case PastTheTotal => o == Unmodelled
              case KnownValue =>
                if !room then o == Rejected
                else
                  && Standing(next) && nextOrder == |md.hist| && Healthy(md)
                  && Ready(Interval(decodeLow, decodeRange)) && Reading(inData, shifted, decodeCode, inPos)
                  && outStart < out == outStart + 1 <= outEnd
                  && outData[..outStart] == old(outData[..outStart])
                  && o == Prepend(outData[outStart],
                                  Decode(md, Interval(decodeLow, decodeRange), Drop(inData, shifted), outEnd - out))
    {
      hide NodeAt, ContextAt, NodeOk, ContextOk, ShapeOk, Standing, Healthy, Decode, DecodeValue, Advance,
        Ready, AllBalanced, LearnDecoded, Reading, Window, Drop, Prepend, Linked;
      StandingHealthy(predicted);
      ghost var md0 := md;
      DecodeNext(md, Interval(low, range), Drop(inData, shifts), outEnd - outStart);
      nextOrder, room, out := order, true, outStart;
      var value;
      verdict, value, next, decodeLow, decodeRange, decodeCode, inPos, shifted :=
        DecodeByte(predicted, low, range, code, inData, inStart, shifts);
      if verdict != KnownValue {
        return;
      }
      room, out := RangeOutput(value, outData, outStart, outEnd);
      if !room {
        return;
      }
      assert outData[..outStart] == outData[..out][..outStart];
      assert outData[outStart] == outData[..out][outStart];
      next, nextOrder := NextContext(next, nextOrder, value);
      StandingHealthy(next);
    }

    /** Decompresses a stream into the output buffer and returns the number of bytes, or 0
        when the stream is rejected or the buffer too small. A code past the root's
        total, which no compressor writes, ends the run as not modelled. */
    method Decompress(inData: seq<byte>, outData: array<byte>, outLimit: nat) returns (n: nat, modelled: bool)
      requires symbols.Length == POOL_SIZE && outLimit <= outData.Length
      modifies symbols, this, outData
      ensures match Unstream(inData, outLimit)
              case Output(data) => modelled && n == |data| && n <= outLimit && outData[..n] == data
              case Rejected => modelled && n == 0
              case Unmodelled => !modelled
      ensures outData[outLimit..] == old(outData[outLimit..])
    {
      hide Standing, Healthy, Decode, Ready, Reading, Window, Drop, Unstream, Prepend, Prefixed, Repr, Layout;
      if |inData| <= 0 {
        EmptyStream(outLimit);
        return 0, true;
      }
      CreateRoot();
      UnstreamStarts(inData, outLimit);
      var code, inPos := RangeSeed(inData);
      var low: u32, range: u32 := 0, 0xFFFF_FFFF;
      var out: nat, predicted: nat, order: nat := 0, 0, 0;
      var verdict, room := KnownValue, true;
      ghost var shifts: nat, written: seq<byte> := 0, [];
      StandingHealthy(0);
      while true
        invariant Standing(predicted) && order == |md.hist| && Healthy(md) && Ready(Interval(low, range))
        invariant out <= outLimit
        invariant Reading(inData, shifts, code, inPos)
        invariant written == outData[..out]
        invariant Unstream(inData, outLimit)
               == Prefixed(written, Decode(md, Interval(low, range), Drop(inData, shifts), outLimit - out))
        invariant outData[outLimit..] == old(outData[outLimit..])
        decreases outLimit - out
      {
        PrefixedEnd(written);
        verdict, room, predicted, order, low, range, code, inPos, shifts, out :=
          DecompressByte(predicted, order, low, range, code, inData, inPos, shifts, outData, out, outLimit);
        if verdict == EndOfData {
          return out, true;
        } else if verdict == NoSuchCode {
          return 0, true;
        } else if verdict == PastTheTotal {
          return 0, false;
        }
        if !room {
          return 0, true;
        }
        PrefixedPrepend(written, outData[out - 1],
                        Decode(md, Interval(low, range), Drop(inData, shifts), outLimit - out));
        written := written + [outData[out - 1]];
      }
    }

    lemma StandingHealthy(predicted: nat)
      requires Standing(predicted)
      ensures Healthy(md) && AllBalanced(md) && |md.hist| <= SUBCONTEXT_ORDER && Repr()
      ensures md.used < POOL_SIZE - SUBCONTEXT_ORDER && Linked(-1)
      ensures predicted < nextSymbol && shape.path[predicted] == md.hist
    {
    }
  }

  // ----- the stream as the compressor's loop goes through the data

  lemma BuffersStart(buffers: seq<seq<byte>>)
    requires buffers != []
    ensures Concat(buffers) == buffers[0][0..] + Concat(buffers[1..])
  {
  }

  lemma BuffersNext(inData: seq<byte>, buffers: seq<seq<byte>>)
    ensures inData[|inData|..] + Concat(buffers) == if buffers == [] then [] else buffers[0][0..] + Concat(buffers[1..])
  {
  }

  lemma TakeByte(inData: seq<byte>, inPos: nat, more: seq<byte>)
    requires inPos < |inData|
    ensures inData[inPos..] + more == [inData[inPos]] + (inData[inPos + 1..] + more)
  {
  }

  lemma StreamStarts(data: seq<byte>)
    ensures Healthy(INITIAL) && Ready(FULL) && Stream(data) == Encode(INITIAL, data, FULL)
  {
    InitialHealthy();
  }

  lemma EncodeNext(md: Model, data: seq<byte>, i: Interval)
    requires Healthy(md) && Ready(i) && data != []
    ensures AllBalanced(md) && |md.hist| <= SUBCONTEXT_ORDER
    ensures var e := EncodeValue(md, md.hist, data[0], i);
            && Healthy(Advance(e.md, data[0]))
            && Encode(md, data, i) == e.bytes + Encode(Advance(e.md, data[0]), data[1..], e.i)
  {
    AdvanceHealthy(EncodeValue(md, md.hist, data[0], i).md, data[0]);
  }

  lemma EncodeLast(md: Model, i: Interval)
    requires Healthy(md) && Ready(i)
    ensures i.low < TWO32 && Encode(md, [], i) == Flush(i.low)
  {
  }

  // ----- the data as the decompressor's loop goes through the stream

  function Prefixed(data: seq<byte>, o: Outcome): Outcome {
    if o.Output? then Output(data + o.data) else o
  }

  lemma PrefixedPrepend(data: seq<byte>, v: byte, o: Outcome)
    ensures Prefixed(data, Prepend(v, o)) == Prefixed(data + [v], o)
  {
    if o.Output? {
      assert data + ([v] + o.data) == (data + [v]) + o.data;
    }
  }

  lemma PrefixedEnd(data: seq<byte>)
    ensures Prefixed(data, Output([])) == Output(data)
    ensures Prefixed(data, Rejected) == Rejected && Prefixed(data, Unmodelled) == Unmodelled
  {
    assert data + [] == data;
  }

  lemma EmptyStream(limit: nat)
    ensures Unstream([], limit) == Output([])
  {
    StreamRoundTrip([], limit);
  }

  lemma UnstreamStarts(inData: seq<byte>, limit: nat)
    ensures Healthy(INITIAL) && Ready(FULL)
    ensures Unstream(inData, limit) == Prefixed([], Decode(INITIAL, FULL, Drop(inData, 0), limit))
  {
    InitialHealthy();
    assert Drop(inData, 0) == inData;
  }

  /** One turn of the decompressor's loop. */
  lemma DecodeNext(md: Model, i: Interval, stream: seq<byte>, limit: nat)
    requires Healthy(md) && Ready(i)
    ensures AllBalanced(md) && |md.hist| <= SUBCONTEXT_ORDER
    ensures match DecodeValue(md, md.hist, i, stream)
            case End => Decode(md, i, stream, limit) == Output([])
            case DeadEnd => Decode(md, i, stream, limit) == Rejected
            case Garbled => Decode(md, i, stream, limit) == Unmodelled
            case Value(v, stop, k, rest) =>
              if limit == 0 then Decode(md, i, stream, limit) == Rejected
              else
                && Ends(md.hist, stop) && Ready(k)
                && Healthy(Advance(LearnDecoded(md, stop, v), v))
                && Decode(md, i, stream, limit)
                == Prepend(v, Decode(Advance(LearnDecoded(md, stop, v), v), k, rest, limit - 1))
  {
    hide DecodeValue, Learn, Patch;
    match DecodeValue(md, md.hist, i, stream)
    case Value(v, stop, k, rest) => AdvanceHealthy(LearnDecoded(md, stop, v), v);
    case _ =>
  }
}
