/**
 Reliable sequence numbers on the wire and the windows both ends test them against.
 Commands of a channel are numbered 1, 2, 3, ... without bound; the wire carries the
 numbers modulo 2^16, split into 16 windows of 4096.
 */
module ReliableWindows {
  import opened Words

  const WINDOW_SIZE := 0x1000
  const WINDOWS := 16
  const FREE_WINDOWS := 8

  function Wire(n: nat): u16 {
    n % TWO16
  }

  /** The unbounded window of an unbounded number. */
  function Win(n: nat): nat {
    n / WINDOW_SIZE
  }

  /** The window of a wire number as seen from `base`: numbers below `base` are taken to
      lie one round ahead. */
  function WindowFrom(number: u16, base: u16): nat {
    number / WINDOW_SIZE + if number < base then WINDOWS else 0
  }

  /** How many windows ahead of the base's a wire number is taken to lie. */
  function Ahead(number: u16, base: u16): int {
    WindowFrom(number, base) - base / WINDOW_SIZE
  }

  /** The receiver's test: in the current window or one of the next six. */
  predicate Accepted(number: u16, base: u16) {
    base / WINDOW_SIZE <= WindowFrom(number, base) < base / WINDOW_SIZE + FREE_WINDOWS - 1
  }

  /** The receiver acknowledges nothing in the two windows past those it accepts. */
  predicate Unacknowledged(number: u16, base: u16) {
    base / WINDOW_SIZE + FREE_WINDOWS - 1 <= WindowFrom(number, base) <= base / WINDOW_SIZE + FREE_WINDOWS
  }

  lemma WireWindow(n: nat)
    ensures Wire(n) / WINDOW_SIZE == Win(n) % WINDOWS
    ensures n == (n / TWO16) * TWO16 + Wire(n)
    ensures Win(n) == (n / TWO16) * WINDOWS + Wire(n) / WINDOW_SIZE
  {
    var q, r := n / TWO16, n % TWO16;
    var a, b := r / WINDOW_SIZE, r % WINDOW_SIZE;
    assert n == q * TWO16 + a * WINDOW_SIZE + b == (q * WINDOWS + a) * WINDOW_SIZE + b;
    assert Win(n) == q * WINDOWS + a;
  }

  lemma WinMono(a: nat, b: nat)
    requires a <= b
    ensures Win(a) <= Win(b)
  {
  }

  /** From a base at most one round behind, a wire number's distance in windows is exact. */
  lemma AheadExact(n: nat, base: nat)
    requires base <= n < base + TWO16
    ensures Ahead(Wire(n), Wire(base)) == Win(n) - Win(base)
  {
    WireWindow(n);
    WireWindow(base);
    var q, p := n / TWO16, base / TWO16;
    assert q == p || q == p + 1;
  }

  /** A number the base has passed, less than a round ago, is taken for an acceptable new
      one exactly when it is ten or more windows behind. */
  lemma StaleAcceptedExactly(n: nat, base: nat)
    requires n < base < n + TWO16
    ensures Accepted(Wire(n), Wire(base)) <==> Win(base) >= Win(n) + 10
  {
    WireWindow(n);
    WireWindow(base);
    WinMono(n, base);
    var q, p := n / TWO16, base / TWO16;
    assert q == p || q + 1 == p;
  }

  /** What is left unacknowledged, for numbers at most nine windows behind the base and
      less than a round ahead of it: those seven or eight windows ahead, and, because
      they look the same, those eight or nine behind. */
  lemma UnacknowledgedExactly(n: nat, base: nat)
    requires n < base + TWO16 && Win(base) <= Win(n) + 9
    ensures Unacknowledged(Wire(n), Wire(base)) <==>
              7 <= Win(n) - Win(base) <= 8 || 8 <= Win(base) - Win(n) <= 9
  {
    if base <= n {
      AheadExact(n, base);
      WinMono(base, n);
    } else {
      WireWindow(n);
      WireWindow(base);
      WinMono(n, base);
      var q, p := n / TWO16, base / TWO16;
      assert q == p || q + 1 == p;
    }
  }

  /** Within less than one round the wire number determines the number. */
  lemma WireInjective(a: nat, b: nat)
    requires Wire(a) == Wire(b) && a < b + TWO16 && b < a + TWO16
    ensures a == b
  {
    WireWindow(a);
    WireWindow(b);
  }

  /** The comparisons of the sorted insert: seen from a base behind both, the wire
      numbers compare as the numbers do, once wrapped ones are put after unwrapped. */
  lemma WireOrder(a: nat, b: nat, base: nat)
    requires base <= a < base + TWO16 && base <= b < base + TWO16
    ensures var x, y, z := Wire(a), Wire(b), Wire(base);
            a < b <==> if x >= z then y < z || x < y else y < z && x < y
  {
    WireWindow(a);
    WireWindow(b);
    WireWindow(base);
    var p := base / TWO16;
    assert a / TWO16 == p || a / TWO16 == p + 1;
    assert b / TWO16 == p || b / TWO16 == p + 1;
  }
}
