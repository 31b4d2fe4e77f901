/**
 The set of reliable windows in use, and the mask of ten windows that must be free
 before the next window is entered. The source keeps the set in the bits of a 16-bit
 word; here it is a set of bit numbers.
 */
module WindowBits {
  import opened ReliableWindows

  type Window = w: nat | w < 16

  /** Windows `w` to `w + 9`, cyclically: those the source's mask for `w` has ones for. */
  predicate Masked(w: Window, v: Window) {
    (v + WINDOWS - w) % WINDOWS < FREE_WINDOWS + 2
  }

  /** The test of the used windows against the mask. */
  predicate Busy(used: set<Window>, w: Window) {
    exists v :: v in used && Masked(w, v)
  }

  /** `1 << w`. */
  function Bit(w: Window): bv32 {
    match w
    case 0 => 0x0001 case 1 => 0x0002 case 2 => 0x0004 case 3 => 0x0008
    case 4 => 0x0010 case 5 => 0x0020 case 6 => 0x0040 case 7 => 0x0080
    case 8 => 0x0100 case 9 => 0x0200 case 10 => 0x0400 case 11 => 0x0800
    case 12 => 0x1000 case 13 => 0x2000 case 14 => 0x4000 case 15 => 0x8000
  }

  function Or(a: bv32, b: bv32): bv32 {
    a | b
  }

  function And(a: bv32, b: bv32): bv32 {
    a & b
  }

  function Not(a: bv32): bv32 {
    !a
  }

  function Next(w: Window, k: nat): Window {
    (w + k) % WINDOWS
  }

  /** The source's shift expression, cut to the 16 bits of the used windows. */
  function Shifted(w: Window): bv32 {
    var x: bv32 := 0x3FF;
    ((x << w) | (x >> (16 - w))) & 0xFFFF
  }

  function OrTen(a: bv32, b: bv32, c: bv32, d: bv32, e: bv32, f: bv32, g: bv32, h: bv32, i: bv32, j: bv32): bv32 {
    a | b | c | d | e | f | g | h | i | j
  }

  function TenBits(w: Window): bv32 {
    OrTen(Bit(w), Bit(Next(w, 1)), Bit(Next(w, 2)), Bit(Next(w, 3)), Bit(Next(w, 4)),
          Bit(Next(w, 5)), Bit(Next(w, 6)), Bit(Next(w, 7)), Bit(Next(w, 8)), Bit(Next(w, 9)))
  }

  /** It has ones exactly for the ten windows from `w` on. */
  lemma MaskIsShifted(w: Window)
    ensures Shifted(w) == TenBits(w)
  {
    match w {
      case 0 => assert Shifted(0) == TenBits(0);
      case 1 => assert Shifted(1) == TenBits(1);
      case 2 => assert Shifted(2) == TenBits(2);
      case 3 => assert Shifted(3) == TenBits(3);
      case 4 => assert Shifted(4) == TenBits(4);
      case 5 => assert Shifted(5) == TenBits(5);
      case 6 => assert Shifted(6) == TenBits(6);
      case 7 => assert Shifted(7) == TenBits(7);
      case _ => MaskIsShiftedHigh(w);
    }
  }

  lemma MaskIsShiftedHigh(w: Window)
    requires w >= 8
    ensures Shifted(w) == TenBits(w)
  {
    match w {
      case 8 => assert Shifted(8) == TenBits(8);
      case 9 => assert Shifted(9) == TenBits(9);
      case 10 => assert Shifted(10) == TenBits(10);
      case 11 => assert Shifted(11) == TenBits(11);
      case 12 => assert Shifted(12) == TenBits(12);
      case 13 => assert Shifted(13) == TenBits(13);
      case 14 => assert Shifted(14) == TenBits(14);
      case 15 => assert Shifted(15) == TenBits(15);
    }
  }

  lemma TenWindows(w: Window)
    ensures forall k :: 0 <= k < 10 ==> Masked(w, Next(w, k))
    ensures forall v: Window :: Masked(w, v) ==> v == Next(w, (v + WINDOWS - w) % WINDOWS)
  {
    hide Masked, Next;
    forall k | 0 <= k < 10 ensures Masked(w, Next(w, k)) {
      AheadMasked(w, k);
    }
    forall v: Window | Masked(w, v) ensures v == Next(w, (v + WINDOWS - w) % WINDOWS) {
      NextBack(w, v);
    }
  }

  lemma AheadMasked(w: Window, k: nat)
    requires k < 10
    ensures Masked(w, Next(w, k))
  {
  }

  lemma NextBack(w: Window, v: Window)
    ensures v == Next(w, (v + WINDOWS - w) % WINDOWS)
  {
  }

  // ----- the set and the word

  predicate Meets(word: bv32, mask: bv32) {
    And(word, mask) != 0
  }

  /** The word has ones exactly for the windows of the set. */
  ghost predicate Holds(word: bv32, used: set<Window>) {
    forall v: Window :: Meets(word, Bit(v)) <==> v in used
  }

  lemma AndOr(x: bv32, a: bv32, b: bv32)
    ensures And(x, Or(a, b)) == Or(And(x, a), And(x, b))
  {
  }

  lemma OrAnd(x: bv32, a: bv32, b: bv32)
    ensures And(Or(a, b), x) == Or(And(a, x), And(b, x))
  {
  }

  lemma OrZero(a: bv32, b: bv32)
    ensures Or(a, b) == 0 <==> a == 0 && b == 0
  {
  }

  lemma MeetsEither(x: bv32, a: bv32, b: bv32)
    ensures Meets(x, Or(a, b)) <==> Meets(x, a) || Meets(x, b)
    ensures Meets(Or(a, b), x) <==> Meets(a, x) || Meets(b, x)
  {
    hide And, Or;
    AndOr(x, a, b);
    OrAnd(x, a, b);
    OrZero(And(x, a), And(x, b));
    OrZero(And(a, x), And(b, x));
  }

  /** The source's test of the word is the test of the set. */
  lemma BusyIsTest(word: bv32, used: set<Window>, w: Window)
    requires Holds(word, used)
    ensures Meets(word, Shifted(w)) <==> Busy(used, w)
  {
    hide Meets, Bit, Shifted, Masked, TenBits, Or;
    MaskIsShifted(w);
    TenBitsMeet(word, w);
    TenWindows(w);
    if v :| v in used && Masked(w, v) {
      assert v == Next(w, (v + WINDOWS - w) % WINDOWS);
      MaskedNear(w, v);
    }
  }

  lemma MaskedNear(w: Window, v: Window)
    requires Masked(w, v)
    ensures 0 <= (v + WINDOWS - w) % WINDOWS < 10
  {
  }

  lemma OrSteps(a: bv32, b: bv32, c: bv32, d: bv32, e: bv32, f: bv32, g: bv32, h: bv32, i: bv32, j: bv32)
    ensures a | b | c | d | e | f | g | h | i | j == Or(Or(Or(Or(Or(Or(Or(Or(Or(a, b), c), d), e), f), g), h), i), j)
  {
  }

  lemma OrTenSteps(a: bv32, b: bv32, c: bv32, d: bv32, e: bv32, f: bv32, g: bv32, h: bv32, i: bv32, j: bv32)
    ensures OrTen(a, b, c, d, e, f, g, h, i, j) == Or(Or(Or(Or(Or(Or(Or(Or(Or(a, b), c), d), e), f), g), h), i), j)
  {
    hide Or;
    OrSteps(a, b, c, d, e, f, g, h, i, j);
  }

  lemma MeetsOne(x: bv32, a: bv32, b: bv32, c: bv32, d: bv32, e: bv32, f: bv32, g: bv32, h: bv32, i: bv32, j: bv32)
    ensures Meets(x, OrTen(a, b, c, d, e, f, g, h, i, j)) <==>
            Meets(x, a) || Meets(x, b) || Meets(x, c) || Meets(x, d) || Meets(x, e) ||
            Meets(x, f) || Meets(x, g) || Meets(x, h) || Meets(x, i) || Meets(x, j)
  {
    hide Meets, Or, OrTen;
    OrTenSteps(a, b, c, d, e, f, g, h, i, j);
    var k := Or(Or(Or(Or(a, b), c), d), e);
    MeetsEither(x, a, b);
    MeetsEither(x, Or(a, b), c);
    MeetsEither(x, Or(Or(a, b), c), d);
    MeetsEither(x, Or(Or(Or(a, b), c), d), e);
    MeetsEither(x, k, f);
    MeetsEither(x, Or(k, f), g);
    MeetsEither(x, Or(Or(k, f), g), h);
    MeetsEither(x, Or(Or(Or(k, f), g), h), i);
    MeetsEither(x, Or(Or(Or(Or(k, f), g), h), i), j);
  }

  lemma TenBitsMeet(word: bv32, w: Window)
    ensures Meets(word, TenBits(w)) <==> exists k :: 0 <= k < 10 && Meets(word, Bit(Next(w, k)))
  {
    hide Meets, Bit, Next, OrTen;
    MeetsOne(word, Bit(w), Bit(Next(w, 1)), Bit(Next(w, 2)), Bit(Next(w, 3)), Bit(Next(w, 4)),
             Bit(Next(w, 5)), Bit(Next(w, 6)), Bit(Next(w, 7)), Bit(Next(w, 8)), Bit(Next(w, 9)));
    NextZero(w);
  }

  lemma NextZero(w: Window)
    ensures Next(w, 0) == w
  {
  }

  lemma BitsApartFrom(v: Window, w: Window, low: nat)
    requires low <= w < low + 4
    ensures Meets(Bit(w), Bit(v)) <==> v == w
  {
    if w == low {
    } else if w == low + 1 {
    } else if w == low + 2 {
    } else {
    }
  }

  lemma BitsApart(v: Window, w: Window)
    ensures Meets(Bit(w), Bit(v)) <==> v == w
  {
    hide Meets, Bit;
    BitsApartFrom(v, w, w / 4 * 4);
  }

  /** Setting a window's bit adds the window to the set, and clearing it takes it out. */
  lemma SetAndClear(word: bv32, used: set<Window>, w: Window)
    requires Holds(word, used)
    ensures Holds(Or(word, Bit(w)), used + {w}) && Holds(And(word, Not(Bit(w))), used - {w})
  {
    hide Meets, And, Or, Not, Bit;
    forall v: Window
      ensures Meets(Or(word, Bit(w)), Bit(v)) <==> v in used + {w}
      ensures Meets(And(word, Not(Bit(w))), Bit(v)) <==> v in used - {w}
    {
      BitsApart(v, w);
      MeetsEither(Bit(v), word, Bit(w));
      if v == w {
        ClearMeets(word, Bit(w));
      } else {
        ClearElsewhere(word, Bit(w), Bit(v));
      }
    }
  }

  lemma ClearMeets(word: bv32, a: bv32)
    ensures !Meets(And(word, Not(a)), a)
  {
  }

  lemma ClearElsewhere(word: bv32, a: bv32, b: bv32)
    requires !Meets(a, b)
    ensures Meets(And(word, Not(a)), b) <==> Meets(word, b)
  {
  }
}
