/**
 The fixed-width unsigned integers of the C sources. Values are mathematical
 integers; the functions below write out the truncation that storing a value
 in a narrower C variable performs, and are the identity on values that fit.
 */
module Words {
  const TWO8: int := 0x100
  const TWO16: int := 0x1_0000
  const TWO32: int := 0x1_0000_0000

  type byte = x: int | 0 <= x < 0x100
  type u16 = x: int | 0 <= x < 0x1_0000
  type u32 = x: int | 0 <= x < 0x1_0000_0000

  function U8(x: int): (r: byte)
    ensures 0 <= x < TWO8 ==> r == x
  {
    x % TWO8
  }

  function U16(x: int): (r: u16)
    ensures 0 <= x < TWO16 ==> r == x
  {
    x % TWO16
  }

  function U32(x: int): (r: u32)
    ensures 0 <= x < TWO32 ==> r == x
  {
    x % TWO32
  }

  lemma MulLe(a: nat, b: nat, c: nat)
    requires a <= b
    ensures a * c <= b * c && c * a <= c * b
  {
  }
}
