/**
  The 32-bit integer meaning of each operator kind, as the `i32` WebAssembly
  mnemonics of the code-generation table name it: two's-complement
  wrap-around, signed division truncating toward zero, signed comparisons
  yielding 0 or 1, shift counts taken modulo 32, an arithmetic right shift,
  and a trap (None) for division by zero and for the one overflowing quotient.
  Values are the signed integers a 32-bit word denotes; the bitwise operators
  work on the unsigned reading of the same bits.
*/
module Int32 {
  import opened Wrappers
  import opened Kinds

  const Width: nat := 32
  const Modulus: int := 0x1_0000_0000
  const MinValue: int := -0x8000_0000
  const MaxValue: int := 0x7FFF_FFFF

  /** A 32-bit signed integer. */
  type I32 = x: int | -0x8000_0000 <= x < 0x8000_0000

  function Pow2(n: nat): (p: nat)
    ensures p >= 1
  {
    if n == 0 then 1 else 2 * Pow2(n - 1)
  }

  /** Two's-complement wrap-around of an exact result into 32 bits. */
  function Wrap(i: int): (r: I32)
    ensures (r - i) % Modulus == 0
  {
    if MinValue <= i <= MaxValue then i
    else if MaxValue < i <= MaxValue + Modulus then i - Modulus
    else if MinValue - Modulus <= i < MinValue then i + Modulus
    else (i - MinValue) % Modulus + MinValue
  }

  /** The unsigned reading of the bits of `x`. */
  function Unsigned(x: I32): (u: nat)
    ensures u < Modulus
    ensures x >= 0 ==> u == x
  {
    if x < 0 then x + Modulus else x
  }

  /** The three bitwise gates. */
  datatype Gate = AndGate | OrGate | XorGate

  function GateBit(g: Gate, x: bool, y: bool): bool
  {
    match g
    case AndGate => x && y
    case OrGate => x || y
    case XorGate => x != y
  }

  /** The gate applied bit by bit to the binary digits of `a` and `b`. */
  function Bits(g: Gate, a: nat, b: nat): nat
    decreases a + b
  {
    if a == 0 && b == 0 then 0
    else 2 * Bits(g, a / 2, b / 2) + (if GateBit(g, a % 2 == 1, b % 2 == 1) then 1 else 0)
  }

  /** The signed value of an unsigned 32-bit reading. */
  function Signed(u: nat): I32
    requires u < Modulus
  {
    if u <= MaxValue then u else u - Modulus
  }

  lemma Pow2Width()
    ensures Pow2(Width) == Modulus
  {
    assert Pow2(4) == 16;
    Pow2Add(4, 4);
    Pow2Add(8, 8);
    Pow2Add(16, 16);
  }

  lemma {:induction false} Pow2Add(m: nat, n: nat)
    ensures Pow2(m + n) == Pow2(m) * Pow2(n)
    decreases m
  {
    if m > 0 {
      Pow2Add(m - 1, n);
    }
  }

  function BitwiseWord(g: Gate, a: I32, b: I32): I32
  {
    Pow2Width();
    BitsBound(g, Unsigned(a), Unsigned(b), Width);
    Signed(Bits(g, Unsigned(a), Unsigned(b)))
  }

  /** Signed quotient truncated toward zero. */
  function TruncDiv(p: int, q: int): int
    requires q != 0
  {
    var m := Abs(p) / Abs(q);
    if (p < 0) != (q < 0) then -m else m
  }

  /** Signed remainder, with the sign of the dividend. */
  function TruncRem(p: int, q: int): int
    requires q != 0
  {
    var r := Abs(p) % Abs(q);
    if p < 0 then -r else r
  }

  function Abs(p: int): nat
  {
    if p < 0 then -p else p
  }

  function FromBool(b: bool): I32
  {
    if b then 1 else 0
  }

  /** The two operands whose quotient does not fit in 32 bits. */
  predicate DivOverflows(a: I32, b: I32)
  {
    a == MinValue && b == -1
  }

  /** The value of `a k b` on 32-bit integers, or None where the operation traps. */
  function Eval(k: Kind, a: I32, b: I32): Option<I32>
  {
    match k
    case Add => Some(Wrap(a + b))
    case Sub => Some(Wrap(a - b))
    case Mul => Some(Wrap(a * b))
    case Div => if b == 0 || DivOverflows(a, b) then None else Some(Wrap(TruncDiv(a, b)))
    case Rem => if b == 0 then None else Some(Wrap(TruncRem(a, b)))
    case Lsh => Some(Wrap(a * Pow2(b % Width)))
    case Rsh => Some(Wrap(a / Pow2(b % Width)))
    case GT => Some(FromBool(a > b))
    case LT => Some(FromBool(a < b))
    case GE => Some(FromBool(a >= b))
    case LE => Some(FromBool(a <= b))
    case EQ => Some(FromBool(a == b))
    case NE => Some(FromBool(a != b))
    case And => Some(BitwiseWord(AndGate, a, b))
    case Or => Some(BitwiseWord(OrGate, a, b))
    case Xor => Some(BitwiseWord(XorGate, a, b))
  }

  /** Gates applied to operands below 2^n give a result below 2^n. */
  lemma {:induction false} BitsBound(g: Gate, a: nat, b: nat, n: nat)
    requires a < Pow2(n) && b < Pow2(n)
    ensures Bits(g, a, b) < Pow2(n)
  {
    if n == 0 {
      assert a == 0 && b == 0;
    } else if a != 0 || b != 0 {
      Halve(a, n);
      Halve(b, n);
      BitsBound(g, a / 2, b / 2, n - 1);
    }
  }

  /** Bitwise operations commute, whatever the gate. */
  lemma {:induction false} BitsCommute(g: Gate, a: nat, b: nat)
    ensures Bits(g, a, b) == Bits(g, b, a)
    decreases a + b
  {
    if a != 0 || b != 0 {
      BitsCommute(g, a / 2, b / 2);
    }
  }

  /** Halving drops the lowest bit: a value below 2^n halves to one below 2^(n-1). */
  lemma Halve(x: nat, n: nat)
    requires n > 0 && x < Pow2(n)
    ensures x / 2 < Pow2(n - 1)
  {
    assert Pow2(n) == 2 * Pow2(n - 1);
  }

  /** The all-ones value of n bits halves to the all-ones value of n - 1 bits, and its lowest bit is set. */
  lemma HalveOnes(n: nat)
    requires n > 0
    ensures (Pow2(n) - 1) / 2 == Pow2(n - 1) - 1
    ensures (Pow2(n) - 1) % 2 == 1
  {
    assert Pow2(n) == 2 * Pow2(n - 1);
  }

  lemma {:induction false} AndOnes(x: nat, n: nat)
    requires x < Pow2(n)
    ensures Bits(AndGate, Pow2(n) - 1, x) == x
  {
    if n > 0 {
      Halve(x, n);
      HalveOnes(n);
      AndOnes(x / 2, n - 1);
    }
  }

  lemma {:induction false} AndZero(x: nat)
    ensures Bits(AndGate, 0, x) == 0
  {
    if x != 0 {
      AndZero(x / 2);
    }
  }

  lemma {:induction false} OrZero(x: nat)
    ensures Bits(OrGate, 0, x) == x
  {
    if x != 0 {
      OrZero(x / 2);
    }
  }

  lemma {:induction false} OrOnes(x: nat, n: nat)
    requires x < Pow2(n)
    ensures Bits(OrGate, Pow2(n) - 1, x) == Pow2(n) - 1
  {
    if n > 0 {
      Halve(x, n);
      HalveOnes(n);
      OrOnes(x / 2, n - 1);
    }
  }

  lemma {:induction false} XorZero(x: nat)
    ensures Bits(XorGate, 0, x) == x
  {
    if x != 0 {
      XorZero(x / 2);
    }
  }

  lemma {:induction false} XorSelf(x: nat)
    ensures Bits(XorGate, x, x) == 0
  {
    if x != 0 {
      XorSelf(x / 2);
    }
  }

  /** The same laws on 32-bit values, on either side. */
  lemma BitwiseLaws(x: I32)
    ensures BitwiseWord(AndGate, -1, x) == x && BitwiseWord(AndGate, x, -1) == x
    ensures BitwiseWord(AndGate, 0, x) == 0 && BitwiseWord(AndGate, x, 0) == 0
    ensures BitwiseWord(OrGate, 0, x) == x && BitwiseWord(OrGate, x, 0) == x
    ensures BitwiseWord(OrGate, -1, x) == -1 && BitwiseWord(OrGate, x, -1) == -1
    ensures BitwiseWord(XorGate, 0, x) == x && BitwiseWord(XorGate, x, 0) == x
    ensures BitwiseWord(XorGate, x, x) == 0
  {
    Pow2Width();
    var u := Unsigned(x);
    assert Unsigned(-1) == Pow2(Width) - 1;
    AndOnes(u, Width);
    AndZero(u);
    OrZero(u);
    OrOnes(u, Width);
    XorZero(u);
    XorSelf(u);
    forall g: Gate, c: nat
      ensures Bits(g, c, u) == Bits(g, u, c)
    {
      BitsCommute(g, c, u);
    }
  }

  lemma BitwiseCommutes(g: Gate, a: I32, b: I32)
    ensures BitwiseWord(g, a, b) == BitwiseWord(g, b, a)
  {
    BitsCommute(g, Unsigned(a), Unsigned(b));
  }

  /**
    Quotient and remainder are truncating division: they recompose the
    dividend, the remainder is smaller than the divisor, and it is zero or has
    the dividend's sign.
  */
  lemma TruncDivides(p: int, q: int)
    requires q != 0
    ensures p == q * TruncDiv(p, q) + TruncRem(p, q)
    ensures Abs(TruncRem(p, q)) < Abs(q)
    ensures TruncRem(p, q) == 0 || (TruncRem(p, q) < 0 <==> p < 0)
  {
    var b: int := Abs(q);
    var m: int := Abs(p) / b;
    var r: int := Abs(p) % b;
    assert Abs(p) == b * m + r;
    if q < 0 {
      assert q * m == -(b * m) && q * -m == b * m by {
        NegateProduct(b, m);
      }
    } else {
      NegateProduct(q, m);
    }
  }

  lemma NegateProduct(x: int, y: int)
    ensures (-x) * y == -(x * y) && x * (-y) == -(x * y)
  {
  }

  /** The truncated quotient fits in 32 bits except for the overflowing pair. */
  lemma QuotientFits(a: I32, b: I32)
    requires b != 0 && !DivOverflows(a, b)
    ensures MinValue <= TruncDiv(a, b) <= MaxValue
  {
    var m := Abs(a) / Abs(b);
    QuotientAtMost(Abs(a), Abs(b));
    if Abs(b) >= 2 {
      QuotientHalves(Abs(a), Abs(b));
    }
  }

  lemma QuotientAtMost(x: nat, y: nat)
    requires y >= 1
    ensures x / y <= x
  {
  }

  lemma QuotientHalves(x: nat, y: nat)
    requires y >= 2
    ensures x / y <= x / 2
  {
    var m := x / y;
    assert y * m <= x;
    assert 2 * m <= y * m;
  }

  /**
    A division that does not trap yields the quotient truncated toward zero.
    A remainder that does not trap, which is every remainder by a nonzero
    divisor, the overflowing pair included, yields the truncated remainder.
  */
  lemma DivisionIsTruncating(a: I32, b: I32)
    ensures b != 0 && !DivOverflows(a, b) ==> Eval(Div, a, b).Some? && Eval(Div, a, b).value == TruncDiv(a, b)
    ensures b != 0 ==> Eval(Rem, a, b).Some? && Eval(Rem, a, b).value == TruncRem(a, b)
  {
    if b != 0 {
      TruncDivides(a, b);
      if !DivOverflows(a, b) {
        QuotientFits(a, b);
      }
    }
  }

  predicate IsBoolean(r: Option<I32>)
  {
    r == Some(0) || r == Some(1)
  }

  /** Exactly the comparison kinds yield a 0/1 value on every operand pair, as the boolean-opcode test says. */
  lemma {:induction false} BooleanResultsExactly(k: Kind)
    ensures (forall a: I32, b: I32 :: IsBoolean(Eval(k, a, b))) <==> k in Comparisons
    ensures k in Comparisons <==> IsBoolOpcode(Ordinal(k))
  {
    OrdinalRoundTrip(k);
    if k in Comparisons {
      forall a: I32, b: I32
        ensures IsBoolean(Eval(k, a, b))
      {
        ComparisonIsBoolean(k, a, b);
      }
    } else {
      SmallRightIdentityKeeps(k, 2);
    }
  }

  lemma ComparisonIsBoolean(k: Kind, a: I32, b: I32)
    requires k in Comparisons
    ensures IsBoolean(Eval(k, a, b))
  {
    match k
    case GT =>
    case LT =>
    case GE =>
    case LE =>
    case EQ =>
    case NE =>
  }

  /** A right operand that leaves every small left operand of kind `k` unchanged. */
  function SmallRightIdentity(k: Kind): I32
  {
    match k
    case Mul => 1
    case Div => 1
    case Rem => 3
    case And => -1
    case _ => 0
  }

  lemma SmallRightIdentityKeeps(k: Kind, x: I32)
    requires k !in Comparisons && -3 < x < 3
    ensures Eval(k, x, SmallRightIdentity(k)) == Some(x)
  {
    match k
    case Add =>
    case Sub =>
    case Mul =>
    case Div =>
    case Rem =>
    case Lsh =>
    case Rsh =>
    case And => BitwiseLaws(x);
    case Or => BitwiseLaws(x);
    case Xor => BitwiseLaws(x);
  }

  /** Exactly the commutative kinds give the same result for swapped operands, as the commutativity test says. */
  lemma {:induction false} CommutesExactly(k: Kind)
    ensures (forall a: I32, b: I32 :: Eval(k, a, b) == Eval(k, b, a)) <==> k in Commutative
    ensures k in Commutative <==> IsCommutativeOpcode(Ordinal(k))
  {
    OrdinalRoundTrip(k);
    if k in Commutative {
      forall a: I32, b: I32
        ensures Eval(k, a, b) == Eval(k, b, a)
      {
        Commutes(k, a, b);
      }
    } else {
      ZeroOneDiffer(k);
    }
  }

  lemma Commutes(k: Kind, a: I32, b: I32)
    requires k in Commutative
    ensures Eval(k, a, b) == Eval(k, b, a)
  {
    match k
    case Add =>
    case Mul =>
    case EQ =>
    case NE =>
    case And => BitwiseCommutes(AndGate, a, b);
    case Or => BitwiseCommutes(OrGate, a, b);
    case Xor => BitwiseCommutes(XorGate, a, b);
  }

  lemma ZeroOneDiffer(k: Kind)
    requires k !in Commutative
    ensures Eval(k, 0, 1) != Eval(k, 1, 0)
  {
    match k
    case Sub =>
    case Div =>
    case Rem =>
    case Lsh =>
    case Rsh =>
    case GT =>
    case LT =>
    case GE =>
    case LE =>
  }

  lemma {:induction false} Pow2Monotone(m: nat, n: nat)
    requires m <= n
    ensures Pow2(m) <= Pow2(n)
    decreases n
  {
    if m < n {
      Pow2Monotone(m, n - 1);
    }
  }

  /** A shift by 1 to 31 places multiplies or divides by a power of two between 2 and 2^31. */
  lemma Pow2Small(n: nat)
    requires 1 <= n < Width
    ensures 2 <= Pow2(n) <= 0x8000_0000
  {
    Pow2Width();
    Pow2Monotone(1, n);
    Pow2Monotone(n, Width - 1);
  }

  lemma SmallQuotient(x: int, y: int)
    requires 0 <= x < y
    ensures x / y == 0
  {
  }

  /** Flooring -1 by any positive divisor leaves -1: the arithmetic shift of all ones. */
  lemma FloorMinusOne(p: int)
    requires p >= 1
    ensures -1 / p == -1
  {
    assert -1 == p * -1 + (p - 1);
  }

  lemma RemainderSelf(x: int)
    requires x >= 1
    ensures x % x == 0
  {
    assert x == x * 1 + 0;
  }
}
