/** The integers and characters of the daemons' platform. */
module Machine {

  /** `std::size_t` is a 64-bit word: its arithmetic is modulo `WORD`. */
  const WORD := 0x1_0000_0000_0000_0000

  /** `unsigned int` has 32 bits. */
  const UINT := 0x1_0000_0000

  /** A signed value converted to `std::size_t`. */
  function ToWord(x: int): (w: nat)
    ensures w < WORD
  {
    x % WORD
  }

  /** `char` is signed: bytes from 128 on are negative. */
  function SignedChar(c: char): int {
    var b := c as int % 256;
    if b < 128 then b else b - 256
  }

  /** The word that is congruent to a value, and the signed byte that is congruent to a character. */
  lemma Congruent(x: int, c: char)
    ensures (x - ToWord(x)) % WORD == 0
    ensures -128 <= SignedChar(c) < 128 && (c as int - SignedChar(c)) % 256 == 0
  {
  }
}
