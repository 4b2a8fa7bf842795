/**
  The sixteen binary operator kinds and the classification predicates that the
  rest of the compiler applies to their integer ordinals.
*/
module Kinds {
  import opened Wrappers

  /** The operator kinds, in declaration order: the order fixes each ordinal. */
  datatype Kind =
    | Add | Sub | Mul | Div | Rem
    | Lsh | Rsh
    | GT | LT | GE | LE | EQ | NE
    | And | Or | Xor

  const KindCount: nat := 16

  const Arithmetic: set<Kind> := {Add, Sub, Mul, Div, Rem}
  const Shifts: set<Kind> := {Lsh, Rsh}
  const Comparisons: set<Kind> := {GT, LT, GE, LE, EQ, NE}
  const Bitwise: set<Kind> := {And, Or, Xor}
  const Commutative: set<Kind> := {Add, Mul, EQ, NE, And, Or, Xor}

  /** The enumerator value of a kind; the four groups occupy contiguous ranges. */
  function Ordinal(k: Kind): (o: nat)
    ensures o < KindCount
    ensures k in Arithmetic <==> o <= 4
    ensures k in Shifts <==> 5 <= o <= 6
    ensures k in Comparisons <==> 7 <= o <= 12
    ensures k in Bitwise <==> 13 <= o
    ensures k == Add <==> o == 0
    ensures k == Xor <==> o == 15
  {
    match k
    case Add => 0
    case Sub => 1
    case Mul => 2
    case Div => 3
    case Rem => 4
    case Lsh => 5
    case Rsh => 6
    case GT => 7
    case LT => 8
    case GE => 9
    case LE => 10
    case EQ => 11
    case NE => 12
    case And => 13
    case Or => 14
    case Xor => 15
  }

  /** The kind whose enumerator value is `o`; None outside the enumeration. */
  function KindOf(o: int): (r: Option<Kind>)
    ensures r.Some? <==> 0 <= o < KindCount
    ensures r.Some? ==> Ordinal(r.value) == o
  {
    if o == 0 then Some(Add)
    else if o == 1 then Some(Sub)
    else if o == 2 then Some(Mul)
    else if o == 3 then Some(Div)
    else if o == 4 then Some(Rem)
    else if o == 5 then Some(Lsh)
    else if o == 6 then Some(Rsh)
    else if o == 7 then Some(GT)
    else if o == 8 then Some(LT)
    else if o == 9 then Some(GE)
    else if o == 10 then Some(LE)
    else if o == 11 then Some(EQ)
    else if o == 12 then Some(NE)
    else if o == 13 then Some(And)
    else if o == 14 then Some(Or)
    else if o == 15 then Some(Xor)
    else None
  }

  /** Every kind is recovered from its ordinal, so distinct kinds have distinct ordinals. */
  lemma {:induction false} OrdinalRoundTrip(k: Kind)
    ensures KindOf(Ordinal(k)) == Some(k)
  {
    match k
    case Add =>
    case Sub =>
    case Mul =>
    case Div =>
    case Rem =>
    case Lsh =>
    case Rsh =>
    case GT =>
    case LT =>
    case GE =>
    case LE =>
    case EQ =>
    case NE =>
    case And =>
    case Or =>
    case Xor =>
  }

  /** Comparison operators: their result is a boolean. */
  function IsBoolOpcode(o: int): (b: bool)
    ensures b <==> KindOf(o).Some? && KindOf(o).value in Comparisons
  {
    o >= Ordinal(GT) && o <= Ordinal(NE)
  }

  /** Operators whose operands may be swapped. */
  function IsCommutativeOpcode(o: int): (b: bool)
    ensures b <==> KindOf(o).Some? && KindOf(o).value in Commutative
  {
    o == Ordinal(Add) || o == Ordinal(Mul) || o == Ordinal(EQ) || o == Ordinal(NE)
    || o == Ordinal(And) || o == Ordinal(Or) || o == Ordinal(Xor)
  }

  /** Bitwise logical operators. */
  function IsLogicalOpcode(o: int): (b: bool)
    ensures b <==> KindOf(o).Some? && KindOf(o).value in Bitwise
  {
    o >= Ordinal(And) && o <= Ordinal(Xor)
  }

  /** No operator is both boolean-valued and logical, and every logical operator commutes. */
  lemma ClassificationConsistent(o: int)
    ensures !(IsBoolOpcode(o) && IsLogicalOpcode(o))
    ensures IsLogicalOpcode(o) ==> IsCommutativeOpcode(o)
  {
  }
}
