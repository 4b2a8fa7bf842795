/**
  The neutral and absorbing predicates recorded in the tables, checked against
  the 32-bit integer meaning of each operator: every recorded predicate is
  sound, and the identities the tables leave unrecorded are listed exactly.
*/
module TableAlgebra {
  import opened Wrappers
  import opened Kinds
  import opened Nodes
  import opened BinOps
  import opened Registry
  import opened Int32

  /** Which identity role a value plays, and on which side of the operator. */
  datatype Side = LeftNeutral | RightNeutral | LeftAbsorbing | RightAbsorbing

  /** On operand `x`, value `e` behaves as role `s` demands: a neutral value returns `x`, an absorbing value returns itself. */
  predicate Plays(k: Kind, s: Side, e: I32, x: I32)
  {
    match s
    case LeftNeutral => Eval(k, e, x) == Some(x)
    case RightNeutral => Eval(k, x, e) == Some(x)
    case LeftAbsorbing => Eval(k, e, x) == Some(e)
    case RightAbsorbing => Eval(k, x, e) == Some(e)
  }

  /** `e` plays role `s` for kind `k` on every 32-bit operand. */
  ghost predicate IsIdentity(k: Kind, s: Side, e: I32)
  {
    forall x: I32 :: Plays(k, s, e, x)
  }

  /** The predicate an algebra records for role `s`. */
  function Recorded(alg: Algebra, s: Side): Pred
  {
    match s
    case LeftNeutral => alg.leftNeutral
    case RightNeutral => alg.rightNeutral
    case LeftAbsorbing => alg.leftAbsorbing
    case RightAbsorbing => alg.rightAbsorbing
  }

  /**
    The identities that hold on 32-bit integers but that the tables do not
    record: zero on either side of exclusive or; for the shifts, every nonzero
    count that is a multiple of 32 on the right and zero on the left; minus one
    on the left of right shift; minus one on either side of or.
  */
  predicate Unrecorded(k: Kind, s: Side, e: I32)
  {
    match s
    case LeftNeutral => k == Kind.Xor && e == 0
    case RightNeutral => (k == Kind.Xor && e == 0) || (k in Shifts && e != 0 && e % Width == 0)
    case LeftAbsorbing => (k in Shifts && e == 0) || (k in {Rsh, Kind.Or} && e == -1)
    case RightAbsorbing => k == Kind.Or && e == -1
  }

  /** Values whose role `s` for kind `k` is recorded in the tables or listed as unrecorded. */
  predicate Listed(k: Kind, s: Side, e: I32)
  {
    Holds(Recorded(RecordedAlgebra(k), s), IntLit(e)) || Unrecorded(k, s, e)
  }

  /** An operand on which `e`, when not listed, fails to play role `s` for kind `k`. */
  function Counter(k: Kind, s: Side, e: I32): I32
  {
    var absorbing := s in {LeftAbsorbing, RightAbsorbing};
    match k
    case Add => if absorbing then 1 else 0
    case Sub => if s == LeftNeutral && e == 0 then 1 else if s == RightNeutral then 0 else if absorbing then 1 else 0
    case Mul => if absorbing then 0 else 1
    case Div => if s == LeftNeutral && e == 1 then 2 else if absorbing then 0 else 1
    case Rem => if s == RightNeutral then e else 0
    case Lsh => if s in {LeftNeutral, RightAbsorbing} && e == 0 then 1 else if s in {LeftNeutral, RightAbsorbing} then 0 else 1
    case Rsh => if s in {LeftNeutral, RightAbsorbing} && e == 0 then 1 else if s in {LeftNeutral, RightAbsorbing} then 0 else 1
    case And => if absorbing then 0 else -1
    case Or => if absorbing then -1 else 0
    case Xor => if absorbing then (if e == 0 then 1 else e) else 0
    case _ => if s == LeftAbsorbing then LeftBreaker(k, e) else if s == RightAbsorbing then RightBreaker(k, e) else 2
  }

  /** An operand that makes comparison `k` give something other than `e` when `e` is its left operand. */
  function LeftBreaker(k: Kind, e: I32): I32
  {
    match k
    case GT => if e == 0 then MinValue else 1
    case LT => if e == 0 then 1 else 0
    case GE => if e == 0 then 0 else MaxValue
    case NE => 1
    case _ => 0
  }

  /** An operand that makes comparison `k` give something other than `e` when `e` is its right operand. */
  function RightBreaker(k: Kind, e: I32): I32
  {
    match k
    case GT => if e == 0 then 1 else 0
    case LT => if e == 0 then MinValue else MaxValue
    case GE => if e == 0 then 0 else MinValue
    case LE => if e == 0 then MinValue else MaxValue
    case NE => 1
    case _ => 0
  }

  /** A listed value plays its role on every operand. */
  lemma ListedPlays(k: Kind, s: Side, e: I32, x: I32)
    requires Listed(k, s, e)
    ensures Plays(k, s, e, x)
  {
    match k
    case Div => DivListedPlays(s, e, x);
    case Rsh => RshListedPlays(s, e, x);
    case And => AndListedPlays(s, e, x);
    case Or => OrListedPlays(s, e, x);
    case Xor => XorListedPlays(s, e, x);
    case _ =>
  }

  lemma DivListedPlays(s: Side, e: I32, x: I32)
    requires Listed(Kind.Div, s, e)
    ensures Plays(Kind.Div, s, e, x)
  {
    DivisionIsTruncating(x, e);
  }

  lemma RshListedPlays(s: Side, e: I32, x: I32)
    requires Listed(Kind.Rsh, s, e)
    ensures Plays(Kind.Rsh, s, e, x)
  {
    match s
    case RightNeutral => RshRightNeutralPlays(e, x);
    case LeftAbsorbing => RshLeftAbsorbingPlays(e, x);
    case _ =>
  }

  lemma RshRightNeutralPlays(e: I32, x: I32)
    requires Listed(Kind.Rsh, RightNeutral, e)
    ensures Plays(Kind.Rsh, RightNeutral, e, x)
  {
    assert Pow2(e % Width) == 1;
  }

  lemma RshLeftAbsorbingPlays(e: I32, x: I32)
    requires Listed(Kind.Rsh, LeftAbsorbing, e)
    ensures Plays(Kind.Rsh, LeftAbsorbing, e, x)
  {
    if e == -1 {
      FloorMinusOne(Pow2(x % Width));
    }
  }

  lemma AndListedPlays(s: Side, e: I32, x: I32)
    requires Listed(Kind.And, s, e)
    ensures Plays(Kind.And, s, e, x)
  {
    BitwiseLaws(x);
  }

  lemma OrListedPlays(s: Side, e: I32, x: I32)
    requires Listed(Kind.Or, s, e)
    ensures Plays(Kind.Or, s, e, x)
  {
    BitwiseLaws(x);
  }

  lemma XorListedPlays(s: Side, e: I32, x: I32)
    requires Listed(Kind.Xor, s, e)
    ensures Plays(Kind.Xor, s, e, x)
  {
    BitwiseLaws(x);
  }

  /** A value that is not listed fails its role on the counter operand. */
  lemma CounterRefutes(k: Kind, s: Side, e: I32)
    requires !Listed(k, s, e)
    ensures !Plays(k, s, e, Counter(k, s, e))
  {
    match k
    case Add => AddCounter(s, e);
    case Sub => SubCounter(s, e);
    case Mul => MulCounter(s, e);
    case Div => DivCounter(s, e);
    case Rem => RemCounter(s, e);
    case Lsh => LshCounter(s, e);
    case Rsh => RshCounter(s, e);
    case And => AndCounter(s, e);
    case Or => OrCounter(s, e);
    case Xor => XorCounter(s, e);
    case GT => GTCounter(s, e);
    case LT => LTCounter(s, e);
    case GE => GECounter(s, e);
    case LE => LECounter(s, e);
    case EQ => EQCounter(s, e);
    case NE => NECounter(s, e);
  }

  lemma AddCounter(s: Side, e: I32)
    requires !Listed(Kind.Add, s, e)
    ensures !Plays(Kind.Add, s, e, Counter(Kind.Add, s, e))
  {
  }

  lemma SubCounter(s: Side, e: I32)
    requires !Listed(Kind.Sub, s, e)
    ensures !Plays(Kind.Sub, s, e, Counter(Kind.Sub, s, e))
  {
  }

  lemma MulCounter(s: Side, e: I32)
    requires !Listed(Kind.Mul, s, e)
    ensures !Plays(Kind.Mul, s, e, Counter(Kind.Mul, s, e))
  {
  }

  lemma DivCounter(s: Side, e: I32)
    requires !Listed(Kind.Div, s, e)
    ensures !Plays(Kind.Div, s, e, Counter(Kind.Div, s, e))
  {
    DivisionIsTruncating(e, 1);
    if e != 0 {
      DivisionIsTruncating(1, e);
      DivisionIsTruncating(0, e);
      if Abs(e) >= 2 {
        SmallQuotient(1, Abs(e));
      }
    }
  }

  lemma RemCounter(s: Side, e: I32)
    requires !Listed(Kind.Rem, s, e)
    ensures !Plays(Kind.Rem, s, e, Counter(Kind.Rem, s, e))
  {
    if e != 0 {
      RemainderSelf(Abs(e));
    }
  }

  lemma LshCounter(s: Side, e: I32)
    requires !Listed(Kind.Lsh, s, e)
    ensures !Plays(Kind.Lsh, s, e, Counter(Kind.Lsh, s, e))
  {
    match s
    case LeftNeutral => LshLeftNeutralCounter(e);
    case RightNeutral => LshRightNeutralCounter(e);
    case LeftAbsorbing => LshLeftAbsorbingCounter(e);
    case RightAbsorbing => LshRightAbsorbingCounter(e);
  }

  lemma LshLeftNeutralCounter(e: I32)
    requires !Listed(Kind.Lsh, LeftNeutral, e)
    ensures !Plays(Kind.Lsh, LeftNeutral, e, Counter(Kind.Lsh, LeftNeutral, e))
  {
  }

  lemma LshRightNeutralCounter(e: I32)
    requires !Listed(Kind.Lsh, RightNeutral, e)
    ensures !Plays(Kind.Lsh, RightNeutral, e, Counter(Kind.Lsh, RightNeutral, e))
  {
    Pow2Small(e % Width);
  }

  lemma LshLeftAbsorbingCounter(e: I32)
    requires !Listed(Kind.Lsh, LeftAbsorbing, e)
    ensures !Plays(Kind.Lsh, LeftAbsorbing, e, Counter(Kind.Lsh, LeftAbsorbing, e))
  {
    assert Pow2(1) == 2;
  }

  lemma LshRightAbsorbingCounter(e: I32)
    requires !Listed(Kind.Lsh, RightAbsorbing, e)
    ensures !Plays(Kind.Lsh, RightAbsorbing, e, Counter(Kind.Lsh, RightAbsorbing, e))
  {
  }

  lemma RshCounter(s: Side, e: I32)
    requires !Listed(Kind.Rsh, s, e)
    ensures !Plays(Kind.Rsh, s, e, Counter(Kind.Rsh, s, e))
  {
    match s
    case LeftNeutral => RshLeftNeutralCounter(e);
    case RightNeutral => RshRightNeutralCounter(e);
    case LeftAbsorbing => RshLeftAbsorbingCounter(e);
    case RightAbsorbing => RshRightAbsorbingCounter(e);
  }

  lemma RshLeftNeutralCounter(e: I32)
    requires !Listed(Kind.Rsh, LeftNeutral, e)
    ensures !Plays(Kind.Rsh, LeftNeutral, e, Counter(Kind.Rsh, LeftNeutral, e))
  {
  }

  lemma RshRightNeutralCounter(e: I32)
    requires !Listed(Kind.Rsh, RightNeutral, e)
    ensures !Plays(Kind.Rsh, RightNeutral, e, Counter(Kind.Rsh, RightNeutral, e))
  {
    Pow2Small(e % Width);
    SmallQuotient(1, Pow2(e % Width));
  }

  lemma RshLeftAbsorbingCounter(e: I32)
    requires !Listed(Kind.Rsh, LeftAbsorbing, e)
    ensures !Plays(Kind.Rsh, LeftAbsorbing, e, Counter(Kind.Rsh, LeftAbsorbing, e))
  {
    assert Pow2(1) == 2;
  }

  lemma RshRightAbsorbingCounter(e: I32)
    requires !Listed(Kind.Rsh, RightAbsorbing, e)
    ensures !Plays(Kind.Rsh, RightAbsorbing, e, Counter(Kind.Rsh, RightAbsorbing, e))
  {
  }

  lemma AndCounter(s: Side, e: I32)
    requires !Listed(Kind.And, s, e)
    ensures !Plays(Kind.And, s, e, Counter(Kind.And, s, e))
  {
    BitwiseLaws(e);
  }

  lemma OrCounter(s: Side, e: I32)
    requires !Listed(Kind.Or, s, e)
    ensures !Plays(Kind.Or, s, e, Counter(Kind.Or, s, e))
  {
    BitwiseLaws(e);
  }

  lemma XorCounter(s: Side, e: I32)
    requires !Listed(Kind.Xor, s, e)
    ensures !Plays(Kind.Xor, s, e, Counter(Kind.Xor, s, e))
  {
    BitwiseLaws(e);
    var one: I32 := Counter(Kind.Xor, s, e);
    BitwiseLaws(one);
  }

  lemma GTCounter(s: Side, e: I32)
    requires !Listed(Kind.GT, s, e)
    ensures !Plays(Kind.GT, s, e, Counter(Kind.GT, s, e))
  {
  }

  lemma LTCounter(s: Side, e: I32)
    requires !Listed(Kind.LT, s, e)
    ensures !Plays(Kind.LT, s, e, Counter(Kind.LT, s, e))
  {
  }

  lemma GECounter(s: Side, e: I32)
    requires !Listed(Kind.GE, s, e)
    ensures !Plays(Kind.GE, s, e, Counter(Kind.GE, s, e))
  {
  }

  lemma LECounter(s: Side, e: I32)
    requires !Listed(Kind.LE, s, e)
    ensures !Plays(Kind.LE, s, e, Counter(Kind.LE, s, e))
  {
  }

  lemma EQCounter(s: Side, e: I32)
    requires !Listed(Kind.EQ, s, e)
    ensures !Plays(Kind.EQ, s, e, Counter(Kind.EQ, s, e))
  {
  }

  lemma NECounter(s: Side, e: I32)
    requires !Listed(Kind.NE, s, e)
    ensures !Plays(Kind.NE, s, e, Counter(Kind.NE, s, e))
  {
  }

  /**
    The identities of every kind are exactly the values the tables record plus
    the unrecorded ones listed above.
  */
  lemma IdentitiesExactly(k: Kind, s: Side, e: I32)
    ensures IsIdentity(k, s, e) <==> Listed(k, s, e)
  {
    if Listed(k, s, e) {
      forall x: I32
        ensures Plays(k, s, e, x)
      {
        ListedPlays(k, s, e, x);
      }
    } else {
      CounterRefutes(k, s, e);
    }
  }

  /** The accessor of `op` that tests a node for role `s`. */
  function Recognizes(op: BinOp, s: Side, n: Node): bool
  {
    match s
    case LeftNeutral => IsLeftNeutral(op, n)
    case RightNeutral => IsRightNeutral(op, n)
    case LeftAbsorbing => IsLeftAbsorbing(op, n)
    case RightAbsorbing => IsRightAbsorbing(op, n)
  }

  /**
    Both tables recognise the same literals, every literal they recognise plays
    its role on all 32-bit operands, and the only identities they miss are the
    unrecorded ones.
  */
  lemma TableIdentities(k: Kind, llvm: Instruction -> nat, s: Side, e: I32)
    ensures Recognizes(CodeTable(k, llvm), s, IntLit(e)) <==> Recognizes(LateqTable(k), s, IntLit(e))
    ensures Recognizes(CodeTable(k, llvm), s, IntLit(e)) ==> IsIdentity(k, s, e)
    ensures IsIdentity(k, s, e) <==> Recognizes(CodeTable(k, llvm), s, IntLit(e)) || Unrecorded(k, s, e)
  {
    TablesAgreeOnAlgebra(k, llvm);
    IdentitiesExactly(k, s, e);
  }
}
