/**
  The part of the expression-node abstraction that the operator table relies
  on: the node-combination functions it names, and the four literal tests it
  uses as neutral and absorbing predicates.
*/
module Nodes {
  import opened Wrappers
  import opened Int32

  /** The combination functions named in the tables; their bodies are outside this model. */
  datatype Combiner =
    | AddNode | SubNode | MulNode | DivExtendedNode | RemNode
    | LshNode | RshNode
    | GtNode | LtNode | GeNode | LeNode | EqNode | NeNode
    | AndNode | OrNode | XorNode

  /** A signal node: a 32-bit integer literal, or a node that is not a literal, named by `id`. */
  datatype Node =
    | IntLit(value: I32)
    | Symbol(id: nat)

  /**
    A combiner applied to two nodes, as a descriptor's `compute` requests it.
    The node it builds, folded or not, is outside this model, so no predicate
    applies to a call.
  */
  datatype Call = Call(fn: Combiner, left: Node, right: Node)

  /** The node predicates a table entry may store, as tags instead of function pointers. */
  datatype Pred = FalsePredicate | NoNtrl | IsZero | IsOne | IsMinusOne

  const MinusOne: I32 := -1

  /** The single literal a predicate tag accepts, or None when it accepts nothing. */
  function Accepted(p: Pred): Option<I32>
  {
    match p
    case FalsePredicate => None
    case NoNtrl => None
    case IsZero => Some(0)
    case IsOne => Some(1)
    case IsMinusOne => Some(MinusOne)
  }

  /** Whether predicate `p` holds of node `n`. */
  function Holds(p: Pred, n: Node): (b: bool)
    ensures b <==> Accepted(p).Some? && n == IntLit(Accepted(p).value)
  {
    match p
    case FalsePredicate => false
    case NoNtrl => false
    case IsZero => n.IntLit? && n.value == 0
    case IsOne => n.IntLit? && n.value == 1
    case IsMinusOne => n.IntLit? && n.value == MinusOne
  }

  /** `noNtrl` answers exactly as `falsePredicate` does: never. */
  lemma NoNtrlIsFalse(n: Node)
    ensures Holds(NoNtrl, n) == Holds(FalsePredicate, n) == false
  {
  }
}
