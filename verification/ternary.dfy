/** wsproxy/if_tom.go: the `If` helper the program uses in place of a
    conditional expression. */
module Ternary {

  /** If(cond, a, b): `a` when `cond` holds, `b` otherwise. */
  function If<T>(cond: bool, a: T, b: T): (r: T)
    ensures cond ==> r == a
    ensures !cond ==> r == b
  {
    if cond then a else b
  }

  /** Both branches equal: the condition does not matter. */
  lemma IfSame<T>(cond: bool, x: T)
    ensures If(cond, x, x) == x
  {
  }

  /** Negating the condition swaps the branches. */
  lemma IfNegate<T>(cond: bool, a: T, b: T)
    ensures If(!cond, a, b) == If(cond, b, a)
  {
  }
}
