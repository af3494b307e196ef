/** Types and stack types (crates/compiler/src/types.rs). Side effects of a stack
    effect are not modelled: unification never looks at them. */
module Types {

  datatype Type =
    | Int
    | Float
    | Bool
    | String
    | Symbol
    | Channel
    | Socket
    | Quotation(effect: Effect)
    | Closure(effect: Effect, captures: seq<Type>)
    | Union(name: string)
    | Variant
    | Var(name: string)

  datatype StackType = Empty | Cons(rest: StackType, top: Type) | RowVar(name: string)

  datatype Effect = Effect(inputs: StackType, outputs: StackType)

  /** The number of known positions above the row variable or the empty stack. */
  function Depth(s: StackType): nat {
    match s
    case Cons(rest, _) => 1 + Depth(rest)
    case _ => 0
  }

  function Max(a: nat, b: nat): nat {
    if a < b then b else a
  }

  /** The size of what is written inside quotations and closures; captures are not counted. */
  function TypeSize(t: Type): nat {
    match t
    case Quotation(e) => 1 + StackSize(e.inputs) + StackSize(e.outputs)
    case Closure(e, _) => 1 + StackSize(e.inputs) + StackSize(e.outputs)
    case _ => 0
  }

  function StackSize(s: StackType): nat {
    match s
    case Cons(rest, top) => 1 + StackSize(rest) + TypeSize(top)
    case _ => 0
  }

  /** The size of the largest element. */
  function Nest(s: StackType): nat {
    match s
    case Cons(rest, top) => Max(Nest(rest), TypeSize(top))
    case _ => 0
  }
}
