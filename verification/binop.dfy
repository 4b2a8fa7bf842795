/**
  The operator descriptor: the names, backend opcodes, combination function,
  algebraic predicates and priority recorded for one binary operator.
*/
module BinOps {
  import opened Nodes

  /**
    The interpreter's instruction codes used by the tables. `OpcodeZero` is the
    enumerator whose value is 0, used where an entry carries no instruction;
    it is none of the binary-operator codes.
  */
  datatype FirOpcode =
    | OpcodeZero
    | AddInt | AddReal | SubInt | SubReal | MultInt | MultReal
    | DivInt | DivReal | RemInt | RemReal
    | LshInt | RshInt
    | GTInt | GTReal | LTInt | LTReal | GEInt | GEReal
    | LEInt | LEReal | EQInt | EQReal | NEInt | NEReal
    | ANDInt | ORInt | XORInt

  /** The LLVM instruction and predicate names the LLVM build stores; their numeric ids are a parameter. */
  datatype Instruction =
    | InstAdd | InstFAdd | InstSub | InstFSub | InstMul | InstFMul
    | InstSDiv | InstFDiv | InstSRem | InstFRem
    | InstShl | InstLShr
    | ICmpSGT | ICmpSLT | ICmpSGE | ICmpSLE | ICmpEQ | ICmpNE
    | FCmpOGT | FCmpOLT | FCmpOGE | FCmpOLE | FCmpOEQ | FCmpONE
    | InstAnd | InstOr | InstXor

  /**
    One operator descriptor. The fields follow the constructor's parameter
    order; both absorbing predicates default to `falsePredicate`.
  */
  datatype BinOp = BinOp(
    name: string,
    nameVec: string,
    nameScal: string,
    nameLlvmInt: string,
    nameLlvmFloat: string,
    llvmIntInst: nat,
    llvmFloatInst: nat,
    interpIntInst: FirOpcode,
    interpFloatInst: FirOpcode,
    wasmInt: string,
    wasmFloat: string,
    compute: Combiner,
    leftNeutral: Pred,
    rightNeutral: Pred,
    priority: int,
    leftAbsorbing: Pred := FalsePredicate,
    rightAbsorbing: Pred := FalsePredicate)

  function Compute(op: BinOp, a: Node, b: Node): Call
  {
    Call(op.compute, a, b)
  }

  function IsRightNeutral(op: BinOp, n: Node): bool
  {
    Holds(op.rightNeutral, n)
  }

  function IsLeftNeutral(op: BinOp, n: Node): bool
  {
    Holds(op.leftNeutral, n)
  }

  function IsLeftAbsorbing(op: BinOp, n: Node): bool
  {
    Holds(op.leftAbsorbing, n)
  }

  function IsRightAbsorbing(op: BinOp, n: Node): bool
  {
    Holds(op.rightAbsorbing, n)
  }

  /**
    The constructor keeps every argument, and each accessor applies the stored
    function: `compute` combines the two given nodes with the stored combiner,
    and each predicate accessor answers as the stored predicate does.
  */
  lemma AccessorsApplyStored(
    name: string, nameVec: string, nameScal: string,
    nameLlvmInt: string, nameLlvmFloat: string,
    llvmInt: nat, llvmFloat: nat,
    interpInt: FirOpcode, interpFloat: FirOpcode,
    wasmInt: string, wasmFloat: string,
    f: Combiner, ln: Pred, rn: Pred, priority: int, la: Pred, ra: Pred,
    a: Node, b: Node)
    ensures var op := BinOp(name, nameVec, nameScal, nameLlvmInt, nameLlvmFloat,
                            llvmInt, llvmFloat, interpInt, interpFloat,
                            wasmInt, wasmFloat, f, ln, rn, priority, la, ra);
            && op.name == name && op.nameVec == nameVec && op.nameScal == nameScal
            && op.nameLlvmInt == nameLlvmInt && op.nameLlvmFloat == nameLlvmFloat
            && op.llvmIntInst == llvmInt && op.llvmFloatInst == llvmFloat
            && op.interpIntInst == interpInt && op.interpFloatInst == interpFloat
            && op.wasmInt == wasmInt && op.wasmFloat == wasmFloat
            && op.priority == priority
            && Compute(op, a, b) == Call(f, a, b)
            && (IsLeftNeutral(op, a) <==> Holds(ln, a))
            && (IsRightNeutral(op, a) <==> Holds(rn, a))
            && (IsLeftAbsorbing(op, a) <==> Holds(la, a))
            && (IsRightAbsorbing(op, a) <==> Holds(ra, a))
  {
  }

  /** A descriptor built without the two absorbing arguments never reports an absorbing operand. */
  lemma DefaultAbsorbingNeverHolds(
    name: string, nameVec: string, nameScal: string,
    nameLlvmInt: string, nameLlvmFloat: string,
    llvmInt: nat, llvmFloat: nat,
    interpInt: FirOpcode, interpFloat: FirOpcode,
    wasmInt: string, wasmFloat: string,
    f: Combiner, ln: Pred, rn: Pred, priority: int,
    n: Node)
    ensures var op := BinOp(name, nameVec, nameScal, nameLlvmInt, nameLlvmFloat,
                            llvmInt, llvmFloat, interpInt, interpFloat,
                            wasmInt, wasmFloat, f, ln, rn, priority);
            !IsLeftAbsorbing(op, n) && !IsRightAbsorbing(op, n)
  {
  }
}
