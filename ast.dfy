/** The expression tree and the runtime values of the interpreter.
    Atom (src/eval/atom.rs), S and Op (src/parser.rs) refer to each other:
    an array atom holds unevaluated sub-expressions, so they share one module. */
module Ast {

  /** Runtime values and leaf references. Num is a real number (the f32 of the
      source without rounding). Identifier, FnCall and Array are the variants
      the evaluator handles besides Str and Num. */
  datatype Atom =
    | Str(text: string)
    | Num(n: real)
    | Bool(b: bool)
    | Identifier(name: string)
    | FnCall(callee: string, args: seq<S>)
    | Array(elems: seq<S>)

  /** Operators: the four the parser produces and the others the evaluator dispatches on. */
  datatype Op =
    | Plus | Minus | Multiply | Divide
    | Negate | Equal | NotEqual | Less | Greater
    | Mod | And | Or | Indexing | Access

  /** Expression tree: a leaf atom or an operator applied to an operand list. */
  datatype S = Atom(atom: Atom) | Cons(op: Op, args: seq<S>)
}
