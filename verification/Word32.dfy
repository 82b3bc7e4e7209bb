/** 32-bit words and what RFC 1321 does with them. */
module Word32 {

  type Word = bv32

  function RotateLeft(value: Word, n: nat): Word
    requires n <= 32
  {
    (value << n) | (value >> (32 - n))
  }

  /** Sums are taken modulo 2^32. */
  function Plus(x: Word, y: Word): Word { x + y }

  // The four functions of section 3.4.

  function F(x: Word, y: Word, z: Word): Word { (x & y) | (!x & z) }
  function G(x: Word, y: Word, z: Word): Word { (x & z) | (y & !z) }
  function H(x: Word, y: Word, z: Word): Word { x ^ y ^ z }
  function I(x: Word, y: Word, z: Word): Word { y ^ (x | !z) }

  function Mix(round: nat, x: Word, y: Word, z: Word): Word
    requires round < 4
  {
    if round == 0 then F(x, y, z) else if round == 1 then G(x, y, z) else if round == 2 then H(x, y, z) else I(x, y, z)
  }

  /** Four addends, modulo 2^32. */
  function Sum4(a: Word, b: Word, c: Word, d: Word): Word { a + b + c + d }

  /** The program adds the table's entry before the word, the standard after it. */
  lemma SumsAgree(a: Word, m: Word, t: Word, x: Word)
    ensures Sum4(a, m, t, x) == Sum4(a, m, x, t)
  {
  }

  /** The program's form of the second function. */
  function SecondMix(b: Word, c: Word, d: Word): Word { (d & b) | (!d & c) }

  lemma SecondMixIsG(b: Word, c: Word, d: Word)
    ensures SecondMix(b, c, d) == G(b, c, d)
  {
  }

  /** What the program's loop computes at step `i`, in each of its four branches. */
  function LoopMix(i: nat, b: Word, c: Word, d: Word): Word {
    if i < 16 then F(b, c, d) else if i < 32 then SecondMix(b, c, d) else if i < 48 then H(b, c, d) else I(b, c, d)
  }

  lemma MixesAgree(i: nat, b: Word, c: Word, d: Word)
    requires i < 64
    ensures LoopMix(i, b, c, d) == Mix(i / 16, b, c, d)
  {
    hide F, G, H, I, SecondMix;
    SecondMixIsG(b, c, d);
  }
}
