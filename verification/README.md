# FAUST binary-operator registry

This project models the binary-operator registry of the FAUST signal compiler. The registry has four parts:

- **Kinds.** A closed enumeration of sixteen operator kinds: add, sub, mul, div, rem, the two shifts, six comparisons, and the three bitwise operators.
- **Classification.** Three predicates over a kind's ordinal: boolean result, commutative, and logical.
- **The `BinOp` descriptor.** Its fields are:
  - the operator's names for the C, vector, scalar, LLVM and LaTeX outputs;
  - its LLVM, interpreter and WebAssembly instructions;
  - the node-combination function;
  - four algebraic predicates (left and right neutral, left and right absorbing);
  - a parenthesisation priority.
- **Two sixteen-entry tables.** One is for code generation; the other is for LaTeX ("lateq") rendering, with its instruction slots left blank.

`Kinds`, `Nodes`, `BinOps` and `Registry` follow the two source files, `compiler/signals/binop.hh` and `compiler/signals/binop.cpp`. `Int32` and `TableAlgebra` follow neither: they are reference definitions against which the tables are checked. The modules are:

- `Kinds` (`kinds.dfy`) holds the enumeration, the ordinals and the three classification predicates. The predicates take an `int`, as in the source, and are related to sets of kinds.
- `Nodes` (`nodes.dfy`) holds the node-combination functions and predicates, as tags:
  - a `Combiner` tag per combination function;
  - a `Pred` tag per predicate: `falsePredicate`, `noNtrl`, `isZero`, `isOne`, `isMinusOne`;
  - a `Call` value for a combiner applied to two nodes, which is what a descriptor's `compute` yields.

  The predicates are given meaning on 32-bit integer literals only.
- `BinOps` (`binop.dfy`) holds the descriptor record, with the constructor's two default arguments, and its accessors.
- `Registry` (`registry.dfy`) holds the two tables as total functions of the kind. The LLVM instruction ids of the code table are a parameter; `NonLlvmIds` gives the build without LLVM, where every id is 0. The module also holds their array form, indexed by ordinal.
- `Int32` (`int32.dfy`) is a reference semantics for the sixteen operators on signed 32-bit integers. It follows the `i32` WebAssembly mnemonic each entry records:
  - wrap-around arithmetic;
  - `div_s` and `rem_s` truncate toward zero; division traps on a zero divisor and on `-2^31 / -1`; remainder traps on a zero divisor;
  - the shift count is taken modulo 32, and `shr_s` is an arithmetic shift;
  - comparisons yield 0 or 1;
  - bitwise operators work on the two's-complement bits.

  The LLVM build names a logical right shift (`LShr`, binop.cpp:54) for `>>`; the model follows the WebAssembly mnemonic instead.
- `TableAlgebra` (`algebra.dfy`) checks the recorded predicates against that semantics. Every literal a table accepts as neutral or absorbing plays that role on every 32-bit operand. The identities the tables do not record are listed exactly:
  - 0 on either side of xor;
  - a nonzero multiple of 32 as a shift count;
  - 0 on the left of a shift;
  - -1 on the left of a right shift;
  - -1 on either side of or.

  The tables are conservative, not wrong: a missing entry only forgoes a simplification.

## Model

| member | source | states |
|---|---|---|
| Kinds.Ordinal | compiler/signals/binop.hh:36-41 | the enumerator value of each kind is below 16; arithmetic occupies 0..4, the shifts 5..6, the comparisons 7..12 and the bitwise kinds 13..15, with add at 0 and xor at 15 |
| Kinds.KindOf | compiler/signals/binop.hh:36-41 | an int names a kind exactly when it lies in 0..15, and then the kind's ordinal is that int |
| Kinds.OrdinalRoundTrip | compiler/signals/binop.hh:36-41 | every kind is recovered from its ordinal, so the sixteen enumerators are distinct |
| Kinds.IsBoolOpcode | compiler/signals/binop.hh:104-107 | true exactly for the ordinals of the six comparisons, false for every other int |
| Kinds.IsCommutativeOpcode | compiler/signals/binop.hh:109-112 | true exactly for the ordinals of add, mul, eq, ne, and, or, xor |
| Kinds.IsLogicalOpcode | compiler/signals/binop.hh:114-117 | true exactly for the ordinals of and, or, xor |
| Kinds.ClassificationConsistent | compiler/signals/binop.hh:104-117 | no int is both boolean-result and logical; every logical int is commutative |
| Nodes.Holds | compiler/signals/binop.hh:28-34 | a predicate tag accepts exactly the one integer literal it names, and `falsePredicate` and `noNtrl` accept nothing |
| Nodes.NoNtrlIsFalse | compiler/signals/binop.cpp:26 | `noNtrl` answers as `falsePredicate` does, false on every node |
| BinOps.AccessorsApplyStored | compiler/signals/binop.hh:70-101 | the constructor stores every argument unchanged; `compute` is the call of the stored combiner on both nodes; each predicate accessor answers as the stored predicate |
| BinOps.DefaultAbsorbingNeverHolds | compiler/signals/binop.hh:85-86 | a descriptor built without the two absorbing arguments reports no node absorbing, on either side |
| Registry.CodeTable | compiler/signals/binop.cpp:39-117 | each kind's code-generation entry, every field as written, with the LLVM instruction ids supplied by the `llvm` parameter (all 0 in the build without LLVM); its combiner, four predicates and priority are the recorded algebra of the kind |
| Registry.LateqTable | compiler/signals/binop.cpp:121-158 | each kind's rendering entry, every field as written; its combiner, four predicates and priority are the recorded algebra of the kind |
| Registry.LateqTableInstructions | compiler/signals/binop.cpp:123-157 | every rendering entry has opcode 0 in both interpreter slots, empty WebAssembly strings and LLVM ids 0 |
| Registry.CodeTableWasm | compiler/signals/binop.cpp:82-116 | the real-typed WebAssembly mnemonic is the "error" sentinel exactly for rem, lsh, rsh, and, or, xor and otherwise starts with `f32.`; every integer mnemonic starts with `i32.` |
| Registry.CodeTableInstructions | compiler/signals/binop.cpp:82-116 | shifts and bitwise kinds use the same interpreter and LLVM instruction for integer and real operands; no code entry carries the zero opcode |
| Registry.CodeTableCombiners | compiler/signals/binop.cpp:82-116 | only mul and and record absorbing predicates, on both sides; only div combines through `divExtendedNode` |
| Registry.LateqTableNames | compiler/signals/binop.cpp:121-158 | every rendering entry keeps the vector and scalar names of the code entry |
| Registry.TablesAgreeOnAlgebra | compiler/signals/binop.cpp:80-158 | for every kind, in every build, both tables record the same combiner, the same four predicates and the same priority |
| Registry.LlvmIdsOnlyChangeIds | compiler/signals/binop.cpp:39-76 | the LLVM build's entries differ from the non-LLVM ones only in the two LLVM instruction ids |
| Registry.NonLlvmIdsAreZero | compiler/signals/binop.cpp:80-117 | in the build without LLVM every entry's two LLVM ids are 0 |
| Registry.Priority | compiler/signals/binop.cpp:82-117 | priorities lie in 5..10; 5 exactly for the comparisons and 10 exactly for div |
| Registry.PriorityValues | compiler/signals/binop.cpp:82-117 | add 6, sub 7, mul 8, div 10, rem 9, both shifts 8, all comparisons 5, and 8, or 7, xor 8 |
| Registry.WasmUnsupportedExactly | compiler/signals/binop.cpp:83-116 | a WebAssembly lookup fails exactly for a real-typed request on rem, lsh, rsh, and, or, xor |
| Registry.Tabulate | compiler/signals/binop.cpp:80-117 | the first n entries of a table laid out as an array, the one at a kind's ordinal being that kind's |
| Registry.CodeArray | compiler/signals/binop.cpp:80-117 | the code-generation array has 16 entries and entry `Ordinal(k)` is kind k's descriptor |
| Registry.LateqArray | compiler/signals/binop.cpp:121-158 | the rendering array has 16 entries and entry `Ordinal(k)` is kind k's descriptor |
| Registry.CodeArrayNames | compiler/signals/binop.cpp:80-117 | the code array's names in order: "+" at 0 through "^" at 15 |
| Registry.LateqArrayNames | compiler/signals/binop.cpp:121-158 | the rendering array's names in order: the four arithmetic signs, then "\bmod", the `\hiderel` relations, through "\veebar" at 15 |
| Registry.SymbolsPerTable | compiler/signals/binop.cpp:82-157 | the two tables share the names of + - * / and differ on every other kind, e.g. "%" against "\bmod" |
| Int32.BooleanResultsExactly | compiler/signals/binop.hh:104-107 | an operator yields only 0 or 1 on every pair of 32-bit operands exactly when it is a comparison, that is, exactly when `isBoolOpcode` holds of its ordinal |
| Int32.CommutesExactly | compiler/signals/binop.hh:109-112 | an operator's result is unchanged by swapping its operands on all 32-bit inputs exactly when `isCommutativeOpcode` holds of its ordinal |
| Int32.DivisionIsTruncating | compiler/signals/binop.cpp:88-91 | `div_s` by a nonzero divisor, other than -2^31 / -1, yields the quotient truncated toward zero; `rem_s` by any nonzero divisor, -2^31 rem -1 included, yields the remainder truncated toward zero |
| Int32.TruncDivides | compiler/signals/binop.cpp:88-91 | truncating division recomposes the dividend, with a remainder smaller than the divisor and of the dividend's sign |
| Int32.BitwiseLaws | compiler/signals/binop.cpp:111-116 | on the two's-complement bits: -1 is neutral and 0 absorbing for and, 0 neutral and -1 absorbing for or, 0 neutral for xor, and x xor x is 0 |
| Int32.BitwiseCommutes | compiler/signals/binop.cpp:111-116 | and, or and xor are commutative on 32-bit words |
| TableAlgebra.ListedPlays | compiler/signals/binop.cpp:82-116 | a literal that the tables record, or that is a listed unrecorded identity, plays its role on every 32-bit operand |
| TableAlgebra.CounterRefutes | compiler/signals/binop.cpp:82-116 | for any other literal, a named operand shows that it fails the role |
| TableAlgebra.IdentitiesExactly | compiler/signals/binop.cpp:82-116 | a literal is a neutral or absorbing element of an operator, on a side, exactly when the tables record it or it is one of the listed unrecorded identities |
| TableAlgebra.TableIdentities | compiler/signals/binop.cpp:80-158 | through the descriptor accessors: both tables recognise the same literals; every literal they recognise is sound; the only identities they miss are the listed unrecorded ones |

## Left out

- The bodies of the combination functions (`addNode`, `divExtendedNode`, …) and of the node predicates (`isZero`, `isOne`, `isMinusOne`) are not part of this model; they are defined in node.hh and signals.hh. The combiners are opaque tags. The predicates are given meaning on 32-bit integer literals only, so real literals, which fold in floating point, are not modelled.
- The simplifying signal constructor that consumes the predicates is not part of this model. Neither is its handling of division by zero.
- The numeric values of LLVM's `Instruction`, `ICmpInst` and `FCmpInst` constants are foreign enumerations. They are a parameter from instruction names to naturals. The interpreter opcodes are an abstract enumeration; `Opcode(0)` is its zero element.
- The integer meaning of each operator is not defined in `binop.hh` or `binop.cpp`. The model takes it from the `i32` WebAssembly mnemonics the code table records, so the LLVM build's logical `LShr` for `>>` is not given a meaning of its own.
- The tables are global arrays of heap-allocated descriptors. The model gives them as total functions of the kind, plus the 16-element sequences `CodeArray` and `LateqArray`. Allocation, pointers and indexing outside 0..15 have no counterpart; `KindOf` returns `None` outside that range.
- What a combiner builds is not modelled: `Compute` returns the call of the stored combiner on the two nodes, not a node. So the constant folding the combiners perform (two integer literals combined into one) has no counterpart, and no predicate is applied to a combined result.
- `Symbol` stands only for nodes that are not literals. Real literals are not modelled, so nothing is stated about what `isZero`, `isOne` or `isMinusOne` answer for them.
- `OpcodeZero` stands for `FIRInstruction::Opcode(0)`. The interpreter's enumeration is defined in fir_opcode.hh, which is not part of this model. The model assumes that value 0 is none of the binary-operator opcodes the code table names; the last conjunct of `CodeTableInstructions` rests on that assumption.
