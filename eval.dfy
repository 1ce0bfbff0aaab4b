/** The tree-walking evaluator of src/eval.rs. */
module Eval {
  import opened Ast
  import opened Results
  import opened Env
  import Atoms

  /** A value and the scopes after producing it: only a function call can
      change the scopes during evaluation. */
  datatype Evaluated = Evaluated(value: Atom, scopes: seq<Scope>)

  /** Values of an operand list, evaluated left to right. */
  datatype EvaluatedList = EvaluatedList(values: seq<Atom>, scopes: seq<Scope>)

  /** The operations the evaluator calls whose code is not part of this model:
      negate, modulus, and, or, index, access, the ordering behind < and >,
      and the function-call dispatcher (which may change the scopes).
      None stands for a failure of the operation. */
  datatype Prims = Prims(
    negate: Atom -> Option<Atom>,
    modulus: (Atom, Atom) -> Option<Atom>,
    logicalAnd: (Atom, Atom) -> Option<Atom>,
    logicalOr: (Atom, Atom) -> Option<Atom>,
    index: (Atom, Atom) -> Option<Atom>,
    access: (Atom, S) -> Option<Atom>,
    less: (Atom, Atom) -> bool,
    call: (string, seq<S>, seq<Scope>) -> Option<Evaluated>)

  datatype EvalError =
    | Undefined(name: string)               // no scope binds the identifier
    | CallFailed(callee: string)            // the function call returned an error
    | ArithFailed(op: Op, cause: Atoms.ArithError)
    | PrimFailed(op: Op)                    // an operation of Prims failed
    | InvalidExpr(expr: S)                  // no case for this operator and operand count
    | OutOfFuel                             // the evaluation budget ran out

  /** Function calls leave the scopes as they found them. */
  ghost predicate CallsReadOnly(P: Prims) {
    forall c, args, sc :: P.call(c, args, sc).Some? ==> P.call(c, args, sc).value.scopes == sc
  }

  /** The values as leaf expressions, the elements of an evaluated array. */
  function AsLeaves(xs: seq<Atom>): seq<S> {
    seq(|xs|, i requires 0 <= i < |xs| => S.Atom(xs[i]))
  }

  /** The operator/operand-count pairs eval_expr has a case for. */
  predicate HasCase(op: Op, n: nat) {
    match op
    case Plus | Multiply | Divide => n >= 2
    case Minus => n >= 1
    case Negate => n == 1
    case _ => n == 2
  }

  function ArithOf(op: Op, a: Atom, b: Atom): Result<Atom, Atoms.ArithError>
    requires op in {Plus, Minus, Multiply, Divide}
  {
    match op
    case Plus => Atoms.Add(a, b)
    case Minus => Atoms.Sub(a, b)
    case Multiply => Atoms.Mul(a, b)
    case Divide => Atoms.Div(a, b)
  }

  function PrimOf(op: Op, P: Prims): (Atom, Atom) -> Option<Atom>
    requires op in {Mod, And, Or, Indexing}
  {
    match op
    case Mod => P.modulus
    case And => P.logicalAnd
    case Or => P.logicalOr
    case Indexing => P.index
  }

  /** eval_expr. The fuel bounds the nested re-evaluations of Indexing;
      the source has no such bound. */
  function Eval(e: S, sc: seq<Scope>, P: Prims, fuel: nat): (r: Result<Evaluated, EvalError>)
    decreases fuel, e
  {
    match e
    case Atom(a) => EvalAtom(a, sc, P, fuel)
    case Cons(op, xs) =>
      if !HasCase(op, |xs|) then Err(InvalidExpr(e))
      else if op in {Plus, Minus, Multiply, Divide} && |xs| >= 2 then
        var x :- Eval(xs[0], sc, P, fuel);
        var y :- Eval(xs[1], x.scopes, P, fuel);
        match ArithOf(op, x.value, y.value)
        case Ok(v) => Ok(Evaluated(v, y.scopes))
        case Err(cause) => Err(ArithFailed(op, cause))
      else if op in {Minus, Negate} then
        var x :- Eval(xs[0], sc, P, fuel);
        match P.negate(x.value)
        case Some(v) => Ok(Evaluated(v, x.scopes))
        case None => Err(PrimFailed(op))
      else if op in {Equal, NotEqual, Less, Greater} then
        var ev :- EvalAll(xs, sc, P, fuel);
        var a, b := ev.values[0], ev.values[1];
        var v :=
          match op
          case Equal => a == b
          case NotEqual => a != b
          case Less => P.less(a, b)
          case Greater => P.less(b, a);
        Ok(Evaluated(Bool(v), ev.scopes))
      else if op == Access then
        var x :- Eval(xs[0], sc, P, fuel);
        match P.access(x.value, xs[1])
        case Some(v) => Ok(Evaluated(v, x.scopes))
        case None => Err(PrimFailed(op))
      else
        var ev :- EvalAll(xs, sc, P, fuel);
        match PrimOf(op, P)(ev.values[0], ev.values[1])
        case None => Err(PrimFailed(op))
        case Some(v) =>
          if op != Indexing then Ok(Evaluated(v, ev.scopes))
          else if fuel == 0 then Err(OutOfFuel)
          else Eval(S.Atom(v), ev.scopes, P, fuel - 1)
  }

  function EvalAtom(a: Atom, sc: seq<Scope>, P: Prims, fuel: nat): (r: Result<Evaluated, EvalError>)
    decreases fuel, a
  {
    match a
    case Identifier(name) =>
      (match Lookup(sc, name)
       case Some(v) => Ok(Evaluated(v, sc))
       case None => Err(Undefined(name)))
    case FnCall(callee, args) =>
      (match P.call(callee, args, sc)
       case Some(ev) => Ok(ev)
       case None => Err(CallFailed(callee)))
    case Array(xs) =>
      var ev :- EvalAll(xs, sc, P, fuel);
      Ok(Evaluated(Array(AsLeaves(ev.values)), ev.scopes))
    case _ => Ok(Evaluated(a, sc))
  }

  /** Evaluates the operands left to right, each in the scopes the previous one left. */
  function EvalAll(xs: seq<S>, sc: seq<Scope>, P: Prims, fuel: nat): (r: Result<EvaluatedList, EvalError>)
    ensures r.Ok? ==> |r.value.values| == |xs|
    decreases fuel, xs
  {
    if xs == [] then Ok(EvaluatedList([], sc))
    else
      var h :- Eval(xs[0], sc, P, fuel);
      var t :- EvalAll(xs[1..], h.scopes, P, fuel);
      Ok(EvaluatedList([h.value] + t.values, t.scopes))
  }

  /** An identifier evaluates to the innermost binding of its name and leaves
      the scopes alone; an unbound name is an error naming it. */
  lemma EvalIdentifier(name: string, sc: seq<Scope>, P: Prims, fuel: nat)
    ensures Unbound(sc, name) <==> Eval(S.Atom(Identifier(name)), sc, P, fuel) == Err(Undefined(name))
    ensures forall k: nat :: InnermostAt(sc, name, k) ==>
              Eval(S.Atom(Identifier(name)), sc, P, fuel) == Ok(Evaluated(sc[k][name], sc))
  {
  }

  /** Strings, numbers and booleans evaluate to themselves. */
  lemma EvalLiteral(a: Atom, sc: seq<Scope>, P: Prims, fuel: nat)
    requires a.Str? || a.Num? || a.Bool?
    ensures Eval(S.Atom(a), sc, P, fuel) == Ok(Evaluated(a, sc))
  {
  }

  /** Evaluation changes the scopes only through function calls: when calls
      leave the scopes alone, so does every evaluation. */
  lemma {:induction false} EvalReadOnly(e: S, sc: seq<Scope>, P: Prims, fuel: nat)
    requires CallsReadOnly(P)
    ensures Eval(e, sc, P, fuel).Ok? ==> Eval(e, sc, P, fuel).value.scopes == sc
    decreases fuel, e
  {
    match e
    case Atom(a) => EvalAtomReadOnly(a, sc, P, fuel);
    case Cons(op, xs) =>
      if Eval(e, sc, P, fuel).Ok? && HasCase(op, |xs|) {
        if op in {Plus, Minus, Multiply, Divide} && |xs| >= 2 {
          EvalReadOnly(xs[0], sc, P, fuel);
          EvalReadOnly(xs[1], sc, P, fuel);
        } else if op in {Minus, Negate} || op == Access {
          EvalReadOnly(xs[0], sc, P, fuel);
        } else {
          EvalAllReadOnly(xs, sc, P, fuel);
          if op == Indexing {
            var ev := EvalAll(xs, sc, P, fuel).value;
            var v := P.index(ev.values[0], ev.values[1]).value;
            EvalReadOnly(S.Atom(v), sc, P, fuel - 1);
          }
        }
      }
  }

  lemma {:induction false} EvalAtomReadOnly(a: Atom, sc: seq<Scope>, P: Prims, fuel: nat)
    requires CallsReadOnly(P)
    ensures EvalAtom(a, sc, P, fuel).Ok? ==> EvalAtom(a, sc, P, fuel).value.scopes == sc
    decreases fuel, a
  {
    if a.Array? {
      EvalAllReadOnly(a.elems, sc, P, fuel);
    }
  }

  /** With read-only calls every operand is evaluated in the original scopes. */
  lemma {:induction false} EvalAllReadOnly(xs: seq<S>, sc: seq<Scope>, P: Prims, fuel: nat)
    requires CallsReadOnly(P)
    ensures EvalAll(xs, sc, P, fuel).Ok? <==> forall i :: 0 <= i < |xs| ==> Eval(xs[i], sc, P, fuel).Ok?
    ensures EvalAll(xs, sc, P, fuel).Ok? ==>
              EvalAll(xs, sc, P, fuel).value.scopes == sc &&
              forall i :: 0 <= i < |xs| ==> EvalAll(xs, sc, P, fuel).value.values[i] == Eval(xs[i], sc, P, fuel).value.value
    decreases fuel, xs
  {
    if xs != [] {
      EvalReadOnly(xs[0], sc, P, fuel);
      EvalAllReadOnly(xs[1..], sc, P, fuel);
      assert forall i :: 1 <= i < |xs| ==> xs[1..][i - 1] == xs[i];
    }
  }

  /** An array evaluates element by element into an array of the same length
      whose i-th element is the value of the i-th element (read-only calls). */
  lemma ArrayElementwise(xs: seq<S>, sc: seq<Scope>, P: Prims, fuel: nat)
    requires CallsReadOnly(P)
    ensures Eval(S.Atom(Array(xs)), sc, P, fuel).Ok? <==> forall i :: 0 <= i < |xs| ==> Eval(xs[i], sc, P, fuel).Ok?
    ensures Eval(S.Atom(Array(xs)), sc, P, fuel).Ok? ==>
              var r := Eval(S.Atom(Array(xs)), sc, P, fuel).value;
              r.scopes == sc && r.value.Array? && |r.value.elems| == |xs| &&
              forall i :: 0 <= i < |xs| ==> r.value.elems[i] == S.Atom(Eval(xs[i], sc, P, fuel).value.value)
  {
    EvalAllReadOnly(xs, sc, P, fuel);
  }

  /** Binary + - * / evaluate the first operand, then the second in the scopes
      the first left, and combine the two numbers. */
  lemma EvalArithmetic(xs: seq<S>, a: real, b: real, sc: seq<Scope>, s1: seq<Scope>, s2: seq<Scope>, P: Prims, fuel: nat)
    requires |xs| >= 2
    requires Eval(xs[0], sc, P, fuel) == Ok(Evaluated(Num(a), s1))
    requires Eval(xs[1], s1, P, fuel) == Ok(Evaluated(Num(b), s2))
    ensures Eval(Cons(Plus, xs), sc, P, fuel) == Ok(Evaluated(Num(a + b), s2))
    ensures Eval(Cons(Minus, xs), sc, P, fuel) == Ok(Evaluated(Num(a - b), s2))
    ensures Eval(Cons(Multiply, xs), sc, P, fuel) == Ok(Evaluated(Num(a * b), s2))
    ensures b != 0.0 ==> Eval(Cons(Divide, xs), sc, P, fuel) == Ok(Evaluated(Num(a / b), s2))
  {
    var r := Atoms.Mul(Num(a), Num(b));
    assert r.value == Num(Num(a).n * Num(b).n);
    assert Num(a).n == a && Num(b).n == b;
    assert Num(a).n * Num(b).n == a * b;
    assert ArithOf(Multiply, Num(a), Num(b)) == Ok(Num(a * b));
  }

  /** Operands beyond the second are never evaluated by + - * /. */
  lemma ExtraOperandsIgnored(op: Op, xs: seq<S>, sc: seq<Scope>, P: Prims, fuel: nat)
    requires op in {Plus, Minus, Multiply, Divide} && |xs| >= 2
    ensures Eval(Cons(op, xs), sc, P, fuel) == Eval(Cons(op, xs[..2]), sc, P, fuel)
  {
  }

  /** One-operand Minus and Negate both negate their operand. */
  lemma UnaryMinusIsNegate(x: S, sc: seq<Scope>, P: Prims, fuel: nat)
    ensures Eval(Cons(Minus, [x]), sc, P, fuel).Ok? == Eval(Cons(Negate, [x]), sc, P, fuel).Ok?
    ensures Eval(Cons(Minus, [x]), sc, P, fuel).Ok? ==>
              Eval(Cons(Minus, [x]), sc, P, fuel) == Eval(Cons(Negate, [x]), sc, P, fuel)
    ensures Eval(Cons(Negate, [x]), sc, P, fuel).Ok? ==>
              Eval(x, sc, P, fuel).Ok? &&
              Some(Eval(Cons(Negate, [x]), sc, P, fuel).value.value) == P.negate(Eval(x, sc, P, fuel).value.value)
  {
  }

  /** The comparisons take exactly two operands and always yield a boolean. */
  lemma ComparisonsYieldBool(op: Op, xs: seq<S>, sc: seq<Scope>, P: Prims, fuel: nat)
    requires op in {Equal, NotEqual, Less, Greater}
    ensures |xs| != 2 ==> Eval(Cons(op, xs), sc, P, fuel) == Err(InvalidExpr(Cons(op, xs)))
    ensures Eval(Cons(op, xs), sc, P, fuel).Ok? ==> Eval(Cons(op, xs), sc, P, fuel).value.value.Bool?
  {
  }

  /** != is the negation of ==, and a > b is b < a. */
  lemma NotEqualNegatesEqual(xs: seq<S>, sc: seq<Scope>, P: Prims, fuel: nat)
    ensures Eval(Cons(NotEqual, xs), sc, P, fuel).Ok? == Eval(Cons(Equal, xs), sc, P, fuel).Ok?
    ensures Eval(Cons(Equal, xs), sc, P, fuel).Ok? ==>
              var eq := Eval(Cons(Equal, xs), sc, P, fuel).value;
              var ne := Eval(Cons(NotEqual, xs), sc, P, fuel).value;
              eq.value.Bool? && ne == Evaluated(Bool(!eq.value.b), eq.scopes)
    ensures Eval(Cons(Equal, xs), sc, P, fuel).Ok? ==>
              var ev := EvalAll(xs, sc, P, fuel).value;
              Eval(Cons(Equal, xs), sc, P, fuel).value.value == Bool(ev.values[0] == ev.values[1]) &&
              Eval(Cons(Greater, xs), sc, P, fuel) == Ok(Evaluated(Bool(P.less(ev.values[1], ev.values[0])), ev.scopes))
  {
  }

  /** Any operator/operand-count pair without a case is an invalid expression. */
  lemma InvalidArity(op: Op, xs: seq<S>, sc: seq<Scope>, P: Prims, fuel: nat)
    requires !HasCase(op, |xs|)
    ensures Eval(Cons(op, xs), sc, P, fuel) == Err(InvalidExpr(Cons(op, xs)))
  {
  }

  /** Indexing evaluates target and index, then evaluates what index returned. */
  lemma IndexingEvaluatesResult(xs: seq<S>, sc: seq<Scope>, P: Prims, fuel: nat, ev: EvaluatedList, v: Atom)
    requires |xs| == 2 && EvalAll(xs, sc, P, fuel + 1) == Ok(ev)
    requires P.index(ev.values[0], ev.values[1]) == Some(v)
    ensures Eval(Cons(Indexing, xs), sc, P, fuel + 1) == Eval(S.Atom(v), ev.scopes, P, fuel)
  {
  }

  /** Access evaluates only its left operand: the right one is handed over
      as a tree, and need not be evaluable. */
  lemma AccessKeepsRightUnevaluated(a: S, b: S, sc: seq<Scope>, P: Prims, fuel: nat)
    ensures Eval(Cons(Access, [a, b]), sc, P, fuel).Ok? <==>
              Eval(a, sc, P, fuel).Ok? && P.access(Eval(a, sc, P, fuel).value.value, b).Some?
    ensures Eval(Cons(Access, [a, b]), sc, P, fuel).Ok? ==>
              Eval(Cons(Access, [a, b]), sc, P, fuel).value ==
              Evaluated(P.access(Eval(a, sc, P, fuel).value.value, b).value, Eval(a, sc, P, fuel).value.scopes)
  {
  }
}
