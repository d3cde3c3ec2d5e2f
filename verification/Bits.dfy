/** Unsigned machine words as natural numbers, read one binary digit at a time.
    Every operator is the arithmetic meaning of the corresponding word operator,
    so a fixed width is an explicit bound on the value. */
module Bits {

  /** `word & (1 << i) != 0` */
  predicate Has(word: nat, i: nat)
    decreases i
  {
    if i == 0 then word % 2 == 1 else Has(word / 2, i - 1)
  }

  /** `word | (1 << i)` */
  function SetBit(word: nat, i: nat): nat
    decreases i
  {
    if i == 0 then word / 2 * 2 + 1 else word % 2 + 2 * SetBit(word / 2, i - 1)
  }

  /** `word & !(1 << i)` */
  function ClearBit(word: nat, i: nat): nat
    decreases i
  {
    if i == 0 then word / 2 * 2 else word % 2 + 2 * ClearBit(word / 2, i - 1)
  }

  /** `word & ((1 << n) - 1)` */
  function Low(word: nat, n: nat): nat
    decreases n
  {
    if n == 0 then 0 else word % 2 + 2 * Low(word / 2, n - 1)
  }

  /** `word >> n` */
  function Shr(word: nat, n: nat): nat
    decreases n
  {
    if n == 0 then word else Shr(word / 2, n - 1)
  }

  /** `word << n`, with no upper width */
  function Shl(word: nat, n: nat): nat
    decreases n
  {
    if n == 0 then word else 2 * Shl(word, n - 1)
  }

  /** `1 << n` */
  function Pow2(n: nat): (p: nat)
    ensures p >= 1
  {
    if n == 0 then 1 else 2 * Pow2(n - 1)
  }

  lemma {:induction false} HasSetBit(word: nat, i: nat, j: nat)
    ensures Has(SetBit(word, i), j) <==> j == i || Has(word, j)
    decreases i
  {
    if i != 0 && j != 0 {
      HasSetBit(word / 2, i - 1, j - 1);
    }
  }

  lemma {:induction false} ZeroHasNothing(i: nat)
    ensures !Has(0, i)
  {
    if i != 0 {
      ZeroHasNothing(i - 1);
    }
  }

  /** Setting a digit below the width keeps the width. */
  lemma {:induction false} SetBitWidth(word: nat, i: nat, width: nat)
    requires word < Pow2(width) && i < width
    ensures SetBit(word, i) < Pow2(width)
    decreases i
  {
    var half := Pow2(width - 1);
    assert Pow2(width) == 2 * half;
    if i != 0 {
      assert word / 2 < half;
      SetBitWidth(word / 2, i - 1, width - 1);
    }
  }

  /** Clearing a digit that was just set restores the word. */
  lemma {:induction false} ClearSetBit(word: nat, i: nat)
    requires !Has(word, i)
    ensures ClearBit(SetBit(word, i), i) == word
    decreases i
  {
    if i != 0 {
      ClearSetBit(word / 2, i - 1);
    }
  }
}
