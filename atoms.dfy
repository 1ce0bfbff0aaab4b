/** Value-level operations on atoms (src/eval/atom.rs): the arithmetic
    operators, variant comparison and display. */
module Atoms {
  import opened Ast
  import opened Results

  /** Why an arithmetic operator produced no value. */
  datatype ArithError =
    | Todo            // a case the source leaves as todo!() (a Str operand)
    | Unsupported     // a variant the arithmetic of the source does not cover
    | DivisionByZero  // f32 would give an infinity or NaN, which reals cannot hold

  /** Shared shape of the four operators: Num op Num computes, a Str on
      either side is todo!(), anything else has no case. */
  function Arith(a: Atom, b: Atom, f: (real, real) -> real): (r: Result<Atom, ArithError>)
    ensures r.Ok? <==> a.Num? && b.Num?
    ensures r.Ok? ==> r.value == Num(f(a.n, b.n))
    ensures (a.Str? || b.Str?) ==> r == Err(Todo)
    ensures !a.Str? && !b.Str? && !(a.Num? && b.Num?) ==> r == Err(Unsupported)
  {
    if a.Num? && b.Num? then Ok(Num(f(a.n, b.n)))
    else if a.Str? || b.Str? then Err(Todo)
    else Err(Unsupported)
  }

  function Add(a: Atom, b: Atom): (r: Result<Atom, ArithError>)
    ensures r.Ok? <==> a.Num? && b.Num?
    ensures r.Ok? ==> r.value == Num(a.n + b.n)
    ensures (a.Str? || b.Str?) ==> r == Err(Todo)
  {
    Arith(a, b, (x, y) => x + y)
  }

  function Sub(a: Atom, b: Atom): (r: Result<Atom, ArithError>)
    ensures r.Ok? <==> a.Num? && b.Num?
    ensures r.Ok? ==> r.value == Num(a.n - b.n)
    ensures (a.Str? || b.Str?) ==> r == Err(Todo)
  {
    Arith(a, b, (x, y) => x - y)
  }

  function Mul(a: Atom, b: Atom): (r: Result<Atom, ArithError>)
    ensures r.Ok? <==> a.Num? && b.Num?
    ensures r.Ok? ==> r.value == Num(a.n * b.n)
    ensures (a.Str? || b.Str?) ==> r == Err(Todo)
  {
    Arith(a, b, (x, y) => x * y)
  }

  /** Division; a zero divisor is an error here (see the README). */
  function Div(a: Atom, b: Atom): (r: Result<Atom, ArithError>)
    ensures r.Ok? <==> a.Num? && b.Num? && b.n != 0.0
    ensures r.Ok? ==> r.value == Num(a.n / b.n)
    ensures (a.Str? || b.Str?) ==> r == Err(Todo)
    ensures a.Num? && b.Num? && b.n == 0.0 ==> r == Err(DivisionByZero)
  {
    if a.Num? && b.Num? then
      if b.n == 0.0 then Err(DivisionByZero) else Ok(Num(a.n / b.n))
    else if a.Str? || b.Str? then Err(Todo)
    else Err(Unsupported)
  }

  /** The variant tag of an atom, what std::mem::discriminant compares. */
  function Variant(a: Atom): nat {
    match a
    case Str(_) => 0
    case Num(_) => 1
    case Bool(_) => 2
    case Identifier(_) => 3
    case FnCall(_, _) => 4
    case Array(_) => 5
  }

  predicate SameVariant(a: Atom, b: Atom) {
    Variant(a) == Variant(b)
  }

  /** The Display impl: a string shows as its text, with no quotes; the
      format of every other atom (f32 formatting for Num) is the parameter. */
  function Display(a: Atom, format: Atom -> string): (r: string)
    ensures a.Str? ==> r == a.text
  {
    if a.Str? then a.text else format(a)
  }

  /** Arithmetic keeps the variant: a successful operation on two numbers is a number. */
  lemma ArithKeepsVariant(a: Atom, b: Atom)
    requires a.Num? && b.Num?
    ensures Add(a, b).Ok? && SameVariant(Add(a, b).value, a)
    ensures Sub(a, b).Ok? && SameVariant(Sub(a, b).value, a)
    ensures Mul(a, b).Ok? && SameVariant(Mul(a, b).value, a)
    ensures b.n != 0.0 ==> Div(a, b).Ok? && SameVariant(Div(a, b).value, a)
  {
  }

  /** Derived equality is structural: strings are equal iff their texts are,
      and values of different variants are never equal. */
  lemma EqualityIsStructural(a: Atom, b: Atom)
    ensures a.Str? && b.Str? ==> (a == b <==> a.text == b.text)
    ensures !SameVariant(a, b) ==> a != b
  {
  }
}
