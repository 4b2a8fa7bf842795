/**
  The two operator tables: the code-generation table and the LaTeX rendering
  table, each with one descriptor per kind, and their array form indexed by
  ordinal.
*/
module Registry {
  import opened Wrappers
  import opened Kinds
  import opened Nodes
  import opened BinOps

  /** The mnemonic stored where a backend has no instruction for an operand type. */
  const Unsupported: string := "error"

  /** Kinds without a real-typed WebAssembly instruction. */
  const NoRealWasm: set<Kind> := {Rem, Lsh, Rsh, And, Or, Xor}

  /** In a build without LLVM, every LLVM instruction id is 0. */
  const NonLlvmIds: Instruction -> nat := _ => 0

  /** True when `p` is a prefix of `s`. */
  predicate IsPrefix(p: string, s: string)
  {
    |p| <= |s| && s[..|p|] == p
  }

  /**
    The code-generation table entry of kind `k`, with the combiner, predicates
    and priority of the recorded algebra. The LLVM instruction ids come from
    `llvm`; `NonLlvmIds` gives the build without LLVM, where they are 0.
  */
  function CodeTable(k: Kind, llvm: Instruction -> nat): (op: BinOp)
    ensures AlgebraOf(op) == RecordedAlgebra(k)
  {
    match k
    case Add => BinOp("+", "add_vec", "add_scal", "add nsw", "fadd",
      llvm(InstAdd), llvm(InstFAdd), AddInt, AddReal, "i32.add", "f32.add",
      AddNode, IsZero, IsZero, 6)
    case Sub => BinOp("-", "sub_vec", "sub_scal", "sub nsw", "fsub",
      llvm(InstSub), llvm(InstFSub), SubInt, SubReal, "i32.sub", "f32.sub",
      SubNode, NoNtrl, IsZero, 7)
    case Mul => BinOp("*", "mul_vec", "mul_scal", "mul nsw", "fmul",
      llvm(InstMul), llvm(InstFMul), MultInt, MultReal, "i32.mul", "f32.mul",
      MulNode, IsOne, IsOne, 8, IsZero, IsZero)
    case Div => BinOp("/", "div_vec", "div_scal", "sdiv", "fdiv",
      llvm(InstSDiv), llvm(InstFDiv), DivInt, DivReal, "i32.div_s", "f32.div",
      DivExtendedNode, NoNtrl, IsOne, 10)
    case Rem => BinOp("%", "mod_vec", "mod_scal", "srem", "frem",
      llvm(InstSRem), llvm(InstFRem), RemInt, RemReal, "i32.rem_s", Unsupported,
      RemNode, NoNtrl, NoNtrl, 9)
    case Lsh => BinOp("<<", "shift_left_vec", "shift_left_scal", "", "",
      llvm(InstShl), llvm(InstShl), LshInt, LshInt, "i32.shl", Unsupported,
      LshNode, NoNtrl, IsZero, 8)
    case Rsh => BinOp(">>", "shift_right_vec", "shift_right_scal", "", "",
      llvm(InstLShr), llvm(InstLShr), RshInt, RshInt, "i32.shr_s", Unsupported,
      RshNode, NoNtrl, IsZero, 8)
    case GT => BinOp(">", "gt_vec", "gt_scal", "icmp sgt", "fcmp sgt",
      llvm(ICmpSGT), llvm(FCmpOGT), GTInt, GTReal, "i32.gt_s", "f32.gt",
      GtNode, NoNtrl, NoNtrl, 5)
    case LT => BinOp("<", "lt_vec", "lt_scal", "icmp slt", "fcmp slt",
      llvm(ICmpSLT), llvm(FCmpOLT), LTInt, LTReal, "i32.lt_s", "f32.lt",
      LtNode, NoNtrl, NoNtrl, 5)
    case GE => BinOp(">=", "ge_vec", "ge_scal", "icmp sge", "fcmp sge",
      llvm(ICmpSGE), llvm(FCmpOGE), GEInt, GEReal, "i32.ge_s", "f32.ge",
      GeNode, NoNtrl, NoNtrl, 5)
    case LE => BinOp("<=", "le_vec", "le_scal", "icmp sle", "fcmp sle",
      llvm(ICmpSLE), llvm(FCmpOLE), LEInt, LEReal, "i32.le_s", "f32.le",
      LeNode, NoNtrl, NoNtrl, 5)
    case EQ => BinOp("==", "eq_vec", "eq_scal", "icmp eq", "fcmp eq",
      llvm(ICmpEQ), llvm(FCmpOEQ), EQInt, EQReal, "i32.eq", "f32.eq",
      EqNode, NoNtrl, NoNtrl, 5)
    case NE => BinOp("!=", "neq_vec", "neq_scal", "icmp ne", "fcmp ne",
      llvm(ICmpNE), llvm(FCmpONE), NEInt, NEReal, "i32.ne", "f32.ne",
      NeNode, NoNtrl, NoNtrl, 5)
    case And => BinOp("&", "and_vec", "and_scal", "and", "and",
      llvm(InstAnd), llvm(InstAnd), ANDInt, ANDInt, "i32.and", Unsupported,
      AndNode, IsMinusOne, IsMinusOne, 8, IsZero, IsZero)
    case Or => BinOp("|", "or_vec", "or_scal", "or", "or",
      llvm(InstOr), llvm(InstOr), ORInt, ORInt, "i32.or", Unsupported,
      OrNode, IsZero, IsZero, 7)
    case Xor => BinOp("^", "xor_vec", "xor_scal", "xor", "xor",
      llvm(InstXor), llvm(InstXor), XORInt, XORInt, "i32.xor", Unsupported,
      XorNode, NoNtrl, NoNtrl, 8)
  }

  /** The algebra of a descriptor: what both tables must agree on. */
  datatype Algebra = Algebra(
    compute: Combiner,
    leftNeutral: Pred,
    rightNeutral: Pred,
    leftAbsorbing: Pred,
    rightAbsorbing: Pred,
    priority: int)

  function AlgebraOf(op: BinOp): Algebra
  {
    Algebra(op.compute, op.leftNeutral, op.rightNeutral,
            op.leftAbsorbing, op.rightAbsorbing, op.priority)
  }

  /**
    The LaTeX rendering table entry of kind `k`: mathematical symbols as
    names, no interpreter or WebAssembly instruction, and the algebra of the
    code-generation table.
  */
  function LateqTable(k: Kind): (op: BinOp)
    ensures var alg := RecordedAlgebra(k);
      && op.compute == alg.compute && op.priority == alg.priority
      && op.leftNeutral == alg.leftNeutral && op.rightNeutral == alg.rightNeutral
      && op.leftAbsorbing == alg.leftAbsorbing && op.rightAbsorbing == alg.rightAbsorbing
  {
    match k
    case Add => BinOp("+", "add_vec", "add_scal", "add nsw", "fadd", 0, 0,
      OpcodeZero, OpcodeZero, "", "", AddNode, IsZero, IsZero, 6)
    case Sub => BinOp("-", "sub_vec", "sub_scal", "sub nsw", "fsub", 0, 0,
      OpcodeZero, OpcodeZero, "", "", SubNode, NoNtrl, IsZero, 7)
    case Mul => BinOp("*", "mul_vec", "mul_scal", "mul nsw", "fmul", 0, 0,
      OpcodeZero, OpcodeZero, "", "", MulNode, IsOne, IsOne, 8, IsZero, IsZero)
    case Div => BinOp("/", "div_vec", "div_scal", "sdiv", "fdiv", 0, 0,
      OpcodeZero, OpcodeZero, "", "", DivExtendedNode, NoNtrl, IsOne, 10)
    case Rem => BinOp("\\bmod", "mod_vec", "mod_scal", "srem", "frem", 0, 0,
      OpcodeZero, OpcodeZero, "", "", RemNode, NoNtrl, NoNtrl, 9)
    case Lsh => BinOp("\\hiderel{\\ll}", "shift_left_vec", "shift_left_scal", "", "", 0, 0,
      OpcodeZero, OpcodeZero, "", "", LshNode, NoNtrl, IsZero, 8)
    case Rsh => BinOp("\\hiderel{\\gg}", "shift_right_vec", "shift_right_scal", "", "", 0, 0,
      OpcodeZero, OpcodeZero, "", "", RshNode, NoNtrl, IsZero, 8)
    case GT => BinOp("\\hiderel{>}", "gt_vec", "gt_scal", "icmp sgt", "fcmp sgt", 0, 0,
      OpcodeZero, OpcodeZero, "", "", GtNode, NoNtrl, NoNtrl, 5)
    case LT => BinOp("\\hiderel{<}", "lt_vec", "lt_scal", "icmp slt", "fcmp slt", 0, 0,
      OpcodeZero, OpcodeZero, "", "", LtNode, NoNtrl, NoNtrl, 5)
    case GE => BinOp("\\hiderel{\\geq}", "ge_vec", "ge_scal", "icmp sge", "fcmp sge", 0, 0,
      OpcodeZero, OpcodeZero, "", "", GeNode, NoNtrl, NoNtrl, 5)
    case LE => BinOp("\\hiderel{\\leq}", "le_vec", "le_scal", "icmp sle", "fcmp sle", 0, 0,
      OpcodeZero, OpcodeZero, "", "", LeNode, NoNtrl, NoNtrl, 5)
    case EQ => BinOp("\\hiderel{\\equiv}", "eq_vec", "eq_scal", "icmp eq", "fcmp eq", 0, 0,
      OpcodeZero, OpcodeZero, "", "", EqNode, NoNtrl, NoNtrl, 5)
    case NE => BinOp("\\hiderel{\\neq}", "neq_vec", "neq_scal", "icmp ne", "fcmp ne", 0, 0,
      OpcodeZero, OpcodeZero, "", "", NeNode, NoNtrl, NoNtrl, 5)
    case And => BinOp("\\wedge", "and_vec", "and_scal", "and", "and", 0, 0,
      OpcodeZero, OpcodeZero, "", "", AndNode, IsMinusOne, IsMinusOne, 8, IsZero, IsZero)
    case Or => BinOp("\\vee", "or_vec", "or_scal", "or", "or", 0, 0,
      OpcodeZero, OpcodeZero, "", "", OrNode, IsZero, IsZero, 7)
    case Xor => BinOp("\\veebar", "xor_vec", "xor_scal", "xor", "xor", 0, 0,
      OpcodeZero, OpcodeZero, "", "", XorNode, NoNtrl, NoNtrl, 8)
  }

  /**
    The WebAssembly mnemonics of every code-generation entry carry their type
    prefix, with the "error" sentinel exactly where no real-typed instruction
    exists.
  */
  lemma CodeTableWasm(k: Kind, llvm: Instruction -> nat)
    ensures var op := CodeTable(k, llvm);
      && (op.wasmFloat == Unsupported <==> k in NoRealWasm)
      && (op.wasmFloat != Unsupported ==> IsPrefix("f32.", op.wasmFloat))
      && IsPrefix("i32.", op.wasmInt)
  {
    RealWasm(k, llvm);
    IntWasm(k, llvm);
  }

  /** The real-typed half of `CodeTableWasm`. */
  lemma RealWasm(k: Kind, llvm: Instruction -> nat)
    ensures var op := CodeTable(k, llvm);
      && (op.wasmFloat == Unsupported <==> k in NoRealWasm)
      && (op.wasmFloat != Unsupported ==> IsPrefix("f32.", op.wasmFloat))
  {
  }

  /** The integer half of `CodeTableWasm`. */
  lemma IntWasm(k: Kind, llvm: Instruction -> nat)
    ensures IsPrefix("i32.", CodeTable(k, llvm).wasmInt)
  {
  }

  /**
    Every code-generation entry names an interpreter instruction, and the
    shifts and bitwise kinds use the integer instruction for both operand
    types, in the interpreter and in LLVM.
  */
  lemma CodeTableInstructions(k: Kind, llvm: Instruction -> nat)
    ensures var op := CodeTable(k, llvm);
      && (k in Shifts + Bitwise ==> op.interpFloatInst == op.interpIntInst)
      && (k in Shifts + Bitwise ==> op.llvmFloatInst == op.llvmIntInst)
      && op.interpIntInst != OpcodeZero && op.interpFloatInst != OpcodeZero
  {
    if k in Shifts + Bitwise {
      SharedInstructions(k, llvm);
    }
    NamedOpcodes(k, llvm);
  }

  /** The instruction half of `CodeTableInstructions`. */
  lemma SharedInstructions(k: Kind, llvm: Instruction -> nat)
    requires k in Shifts + Bitwise
    ensures var op := CodeTable(k, llvm);
      op.llvmFloatInst == op.llvmIntInst && op.interpFloatInst == op.interpIntInst
  {
  }

  /** The opcode half of `CodeTableInstructions`. */
  lemma NamedOpcodes(k: Kind, llvm: Instruction -> nat)
    ensures CodeTable(k, llvm).interpIntInst != OpcodeZero
    ensures CodeTable(k, llvm).interpFloatInst != OpcodeZero
  {
  }

  /**
    Only multiplication and bitwise and record absorbing elements, and only
    division combines through the extended-division node.
  */
  lemma CodeTableCombiners(k: Kind, llvm: Instruction -> nat)
    ensures var op := CodeTable(k, llvm);
      && (op.leftAbsorbing != FalsePredicate <==> k in {Kind.Mul, Kind.And})
      && (op.rightAbsorbing != FalsePredicate <==> k in {Kind.Mul, Kind.And})
      && (op.compute == DivExtendedNode <==> k == Div)
  {
  }

  /** The rendering entry of every kind carries no interpreter, WebAssembly or LLVM instruction. */
  lemma LateqTableInstructions(k: Kind)
    ensures var op := LateqTable(k);
      && op.interpIntInst == OpcodeZero && op.interpFloatInst == OpcodeZero
      && op.wasmInt == "" && op.wasmFloat == ""
      && op.llvmIntInst == 0 && op.llvmFloatInst == 0
  {
  }

  /** The rendering entry of every kind keeps the code entry's vector and scalar names. */
  lemma LateqTableNames(k: Kind)
    ensures LateqTable(k).nameVec == CodeTable(k, NonLlvmIds).nameVec
    ensures LateqTable(k).nameScal == CodeTable(k, NonLlvmIds).nameScal
  {
  }

  /**
    The algebra recorded for each kind: combiner, neutral and absorbing
    predicates on each side, and priority.
  */
  function RecordedAlgebra(k: Kind): Algebra
  {
    match k
    case Add => Algebra(AddNode, IsZero, IsZero, FalsePredicate, FalsePredicate, 6)
    case Sub => Algebra(SubNode, NoNtrl, IsZero, FalsePredicate, FalsePredicate, 7)
    case Mul => Algebra(MulNode, IsOne, IsOne, IsZero, IsZero, 8)
    case Div => Algebra(DivExtendedNode, NoNtrl, IsOne, FalsePredicate, FalsePredicate, 10)
    case Rem => Algebra(RemNode, NoNtrl, NoNtrl, FalsePredicate, FalsePredicate, 9)
    case Lsh => Algebra(LshNode, NoNtrl, IsZero, FalsePredicate, FalsePredicate, 8)
    case Rsh => Algebra(RshNode, NoNtrl, IsZero, FalsePredicate, FalsePredicate, 8)
    case GT => Algebra(GtNode, NoNtrl, NoNtrl, FalsePredicate, FalsePredicate, 5)
    case LT => Algebra(LtNode, NoNtrl, NoNtrl, FalsePredicate, FalsePredicate, 5)
    case GE => Algebra(GeNode, NoNtrl, NoNtrl, FalsePredicate, FalsePredicate, 5)
    case LE => Algebra(LeNode, NoNtrl, NoNtrl, FalsePredicate, FalsePredicate, 5)
    case EQ => Algebra(EqNode, NoNtrl, NoNtrl, FalsePredicate, FalsePredicate, 5)
    case NE => Algebra(NeNode, NoNtrl, NoNtrl, FalsePredicate, FalsePredicate, 5)
    case And => Algebra(AndNode, IsMinusOne, IsMinusOne, IsZero, IsZero, 8)
    case Or => Algebra(OrNode, IsZero, IsZero, FalsePredicate, FalsePredicate, 7)
    case Xor => Algebra(XorNode, NoNtrl, NoNtrl, FalsePredicate, FalsePredicate, 8)
  }

  /** Both tables, in every build, record the same algebra for each kind. */
  lemma TablesAgreeOnAlgebra(k: Kind, llvm: Instruction -> nat)
    ensures AlgebraOf(CodeTable(k, llvm)) == RecordedAlgebra(k)
    ensures AlgebraOf(LateqTable(k)) == RecordedAlgebra(k)
    ensures CodeTable(k, llvm).priority == LateqTable(k).priority == Priority(k)
  {
  }

  /** Only the LLVM instruction ids depend on the build: names, opcodes and algebra do not. */
  lemma LlvmIdsOnlyChangeIds(k: Kind, llvm: Instruction -> nat)
    ensures var a, b := CodeTable(k, llvm), CodeTable(k, NonLlvmIds);
            a == b.(llvmIntInst := a.llvmIntInst, llvmFloatInst := a.llvmFloatInst)
  {
  }

  /** In the build without LLVM, every entry's LLVM ids are 0. */
  lemma NonLlvmIdsAreZero(k: Kind)
    ensures CodeTable(k, NonLlvmIds).llvmIntInst == 0
    ensures CodeTable(k, NonLlvmIds).llvmFloatInst == 0
  {
  }

  /**
    The parenthesisation priority of `k`, which both tables record alike:
    every comparison lowest at 5, division highest at 10.
  */
  function Priority(k: Kind): (p: int)
    ensures 5 <= p <= 10
    ensures p == 5 <==> k in Comparisons
    ensures p == 10 <==> k == Div
  {
    RecordedAlgebra(k).priority
  }

  /** The recorded priorities. */
  lemma {:induction false} PriorityValues(k: Kind)
    ensures k == Kind.Add ==> Priority(k) == 6
    ensures k == Kind.Sub ==> Priority(k) == 7
    ensures k == Kind.Mul ==> Priority(k) == 8
    ensures k == Div ==> Priority(k) == 10
    ensures k == Rem ==> Priority(k) == 9
    ensures k in Shifts ==> Priority(k) == 8
    ensures k in Comparisons ==> Priority(k) == 5
    ensures k == Kind.And ==> Priority(k) == 8
    ensures k == Kind.Or ==> Priority(k) == 7
    ensures k == Kind.Xor ==> Priority(k) == 8
  {
  }

  /**
    The WebAssembly mnemonic of `op` for an integer or real operand, with the
    "error" sentinel turned into None.
  */
  function WasmMnemonic(op: BinOp, isReal: bool): Option<string>
  {
    var m := if isReal then op.wasmFloat else op.wasmInt;
    if m == Unsupported then None else Some(m)
  }

  /** Asking for a real-typed WebAssembly instruction fails exactly for rem, the shifts and the bitwise kinds. */
  lemma WasmUnsupportedExactly(k: Kind, isReal: bool)
    ensures WasmMnemonic(CodeTable(k, NonLlvmIds), isReal).None? <==> isReal && k in NoRealWasm
  {
    if isReal {
      RealWasm(k, NonLlvmIds);
    } else {
      IntWasm(k, NonLlvmIds);
    }
  }

  /**
    The first `n` entries of a table given as a function of kind, as the array
    indexed by ordinal that the compiler stores.
  */
  function Tabulate(table: Kind -> BinOp, n: nat): (t: seq<BinOp>)
    requires n <= KindCount
    ensures |t| == n
    ensures forall k :: Ordinal(k) < n ==> t[Ordinal(k)] == table(k)
  {
    OrdinalsRoundTrip();
    seq(n, i requires 0 <= i < n => table(KindOf(i).value))
  }

  /** The code-generation table as an array: sixteen entries, the one at a kind's ordinal being that kind's. */
  function CodeArray(llvm: Instruction -> nat): (t: seq<BinOp>)
    ensures |t| == KindCount
    ensures forall k :: t[Ordinal(k)] == CodeTable(k, llvm)
  {
    Tabulate(k => CodeTable(k, llvm), KindCount)
  }

  /** The rendering table as an array, indexed the same way. */
  function LateqArray(): (t: seq<BinOp>)
    ensures |t| == KindCount
    ensures forall k :: t[Ordinal(k)] == LateqTable(k)
  {
    Tabulate(LateqTable, KindCount)
  }

  lemma OrdinalsRoundTrip()
    ensures forall k :: KindOf(Ordinal(k)) == Some(k)
  {
    forall k
      ensures KindOf(Ordinal(k)) == Some(k)
    {
      OrdinalRoundTrip(k);
    }
  }

  /** The display names of a table, in table order. */
  function Names(t: seq<BinOp>): seq<string>
  {
    seq(|t|, i requires 0 <= i < |t| => t[i].name)
  }

  /** The operator symbols of the code-generation table, in ordinal order. */
  const CodeSymbols: seq<string> :=
    ["+", "-", "*", "/", "%", "<<", ">>", ">", "<", ">=", "<=", "==", "!=", "&", "|", "^"]

  /** The LaTeX symbols of the rendering table, in ordinal order. */
  const LateqSymbols: seq<string> :=
    ["+", "-", "*", "/", "\\bmod", "\\hiderel{\\ll}", "\\hiderel{\\gg}",
     "\\hiderel{>}", "\\hiderel{<}", "\\hiderel{\\geq}", "\\hiderel{\\leq}",
     "\\hiderel{\\equiv}", "\\hiderel{\\neq}", "\\wedge", "\\vee", "\\veebar"]

  /** Each kind's code entry is named by the symbol at the kind's ordinal, in either build. */
  lemma CodeSymbolAt(k: Kind, llvm: Instruction -> nat)
    ensures CodeTable(k, llvm).name == CodeSymbols[Ordinal(k)]
  {
    SymbolsAt(k, llvm);
  }

  /** Each kind's rendering entry is named by the LaTeX symbol at the kind's ordinal. */
  lemma LateqSymbolAt(k: Kind)
    ensures LateqTable(k).name == LateqSymbols[Ordinal(k)]
  {
    SymbolsAt(k, NonLlvmIds);
  }

  /** Both symbol lists, one category of kinds at a time. */
  lemma SymbolsAt(k: Kind, llvm: Instruction -> nat)
    ensures CodeTable(k, llvm).name == CodeSymbols[Ordinal(k)]
    ensures LateqTable(k).name == LateqSymbols[Ordinal(k)]
  {
    if k in Arithmetic {
      ArithmeticSymbols(k, llvm);
    } else if k in Shifts {
      ShiftSymbols(k, llvm);
    } else if k in Comparisons {
      ComparisonSymbols(k, llvm);
    } else {
      BitwiseSymbols(k, llvm);
    }
  }

  /** `SymbolsAt` for add, sub, mul, div and rem. */
  lemma ArithmeticSymbols(k: Kind, llvm: Instruction -> nat)
    requires k in Arithmetic
    ensures CodeTable(k, llvm).name == CodeSymbols[Ordinal(k)]
    ensures LateqTable(k).name == LateqSymbols[Ordinal(k)]
  {
  }

  /** `SymbolsAt` for the two shifts. */
  lemma ShiftSymbols(k: Kind, llvm: Instruction -> nat)
    requires k in Shifts
    ensures CodeTable(k, llvm).name == CodeSymbols[Ordinal(k)]
    ensures LateqTable(k).name == LateqSymbols[Ordinal(k)]
  {
  }

  /** `SymbolsAt` for the six comparisons. */
  lemma ComparisonSymbols(k: Kind, llvm: Instruction -> nat)
    requires k in Comparisons
    ensures CodeTable(k, llvm).name == CodeSymbols[Ordinal(k)]
    ensures LateqTable(k).name == LateqSymbols[Ordinal(k)]
  {
  }

  /** `SymbolsAt` for and, or and xor. */
  lemma BitwiseSymbols(k: Kind, llvm: Instruction -> nat)
    requires k in Bitwise
    ensures CodeTable(k, llvm).name == CodeSymbols[Ordinal(k)]
    ensures LateqTable(k).name == LateqSymbols[Ordinal(k)]
  {
  }

  /** Entry `i` of the code-generation array is the operator of the kind with ordinal `i`, from "+" at add to "^" at xor. */
  lemma CodeArrayNames(llvm: Instruction -> nat)
    ensures Names(CodeArray(llvm)) == CodeSymbols
  {
    var names := Names(CodeArray(llvm));
    forall i | 0 <= i < KindCount
      ensures names[i] == CodeSymbols[i]
    {
      CodeSymbolAt(KindOf(i).value, llvm);
    }
  }

  /** Entry `i` of the rendering array is the LaTeX symbol of the kind with ordinal `i`. */
  lemma LateqArrayNames()
    ensures Names(LateqArray()) == LateqSymbols
  {
    var names := Names(LateqArray());
    forall i | 0 <= i < KindCount
      ensures names[i] == LateqSymbols[i]
    {
      LateqSymbolAt(KindOf(i).value);
    }
  }

  /** Where the two arrays' names differ: the display symbol only, and only outside + - * / . */
  lemma SymbolsPerTable()
    ensures CodeTable(Rem, NonLlvmIds).name == "%" && LateqTable(Rem).name == "\\bmod"
    ensures CodeTable(Xor, NonLlvmIds).name == "^" && LateqTable(Xor).name == "\\veebar"
    ensures forall k :: k in {Add, Sub, Mul, Div} ==> LateqTable(k).name == CodeTable(k, NonLlvmIds).name
    ensures forall k :: k !in {Add, Sub, Mul, Div} ==> LateqTable(k).name != CodeTable(k, NonLlvmIds).name
  {
    forall k
      ensures LateqTable(k).name == CodeTable(k, NonLlvmIds).name <==> k in {Add, Sub, Mul, Div}
    {
      SymbolAgreement(k);
    }
  }

  lemma SymbolAgreement(k: Kind)
    ensures LateqTable(k).name == CodeTable(k, NonLlvmIds).name <==> k in {Add, Sub, Mul, Div}
  {
  }
}
