/** The Pratt expression parser of src/parser.rs: a token stack, the
    binding-power loop, and the prefix display of trees. */
module Parser {
  import opened Ast
  import opened Results
  import opened Tokens
  import Atoms

  // ---------------------------------------------------------------- display

  /** Display for Op. The four arithmetic symbols are the source's; the other
      operators have no Display case there and get a name of their own here. */
  function OpSymbol(op: Op): string {
    match op
    case Plus => "+"
    case Minus => "-"
    case Multiply => "*"
    case Divide => "/"
    case Negate => "neg"
    case Equal => "=="
    case NotEqual => "!="
    case Less => "<"
    case Greater => ">"
    case Mod => "%"
    case And => "and"
    case Or => "or"
    case Indexing => "[]"
    case Access => "."
  }

  /** Distinct operators display differently. */
  lemma OpSymbolInjective(a: Op, b: Op)
    ensures OpSymbol(a) == OpSymbol(b) ==> a == b
  {
  }

  /** Display for S: a leaf shows as its atom, an application in prefix form
      "(op c1 c2 ...)". The format of non-string atoms is the parameter. */
  function Display(t: S, format: Atom -> string): string
    decreases t, 1
  {
    match t
    case Atom(a) => Atoms.Display(a, format)
    case Cons(op, xs) => "(" + OpSymbol(op) + DisplayArgs(xs, format) + ")"
  }

  /** Each operand preceded by one space. */
  function DisplayArgs(xs: seq<S>, format: Atom -> string): string
    decreases xs, 0
  {
    if xs == [] then "" else " " + Display(xs[0], format) + DisplayArgs(xs[1..], format)
  }

  /** The number of occurrences of c in s. */
  function Count(s: string, c: char): nat {
    if s == [] then 0 else (if s[0] == c then 1 else 0) + Count(s[1..], c)
  }

  lemma {:induction false} CountAppend(s: string, t: string, c: char)
    ensures Count(s + t, c) == Count(s, c) + Count(t, c)
  {
    if s != [] {
      assert (s + t)[0] == s[0];
      assert (s + t)[1..] == s[1..] + t;
      CountAppend(s[1..], t, c);
      assert Count(s + t, c) == (if s[0] == c then 1 else 0) + Count(s[1..] + t, c);
    } else {
      assert s + t == t;
    }
  }

  function ConsCount(t: S): nat
    decreases t, 1
  {
    match t
    case Atom(_) => 0
    case Cons(_, xs) => 1 + ConsCountAll(xs)
  }

  function ConsCountAll(xs: seq<S>): nat
    decreases xs, 0
  {
    if xs == [] then 0 else ConsCount(xs[0]) + ConsCountAll(xs[1..])
  }

  lemma OpSymbolPlain(op: Op)
    ensures Count(OpSymbol(op), '(') == 0 && Count(OpSymbol(op), ')') == 0
  {
    var s := OpSymbol(op);
    assert Count(s[|s|..], '(') == 0 && Count(s[|s|..], ')') == 0;
    if |s| >= 2 {
      assert Count(s[2..], '(') == 0 && Count(s[2..], ')') == 0;
      assert Count(s[1..], '(') == 0 && Count(s[1..], ')') == 0;
    }
  }

  /** No leaf of the tree displays with a parenthesis. */
  ghost predicate PlainLeaves(t: S, format: Atom -> string)
    decreases t, 1
  {
    match t
    case Atom(a) => Count(Atoms.Display(a, format), '(') == 0 && Count(Atoms.Display(a, format), ')') == 0
    case Cons(_, xs) => PlainLeavesAll(xs, format)
  }

  ghost predicate PlainLeavesAll(xs: seq<S>, format: Atom -> string)
    decreases xs, 0
  {
    xs == [] || (PlainLeaves(xs[0], format) && PlainLeavesAll(xs[1..], format))
  }

  /** Prefix form: every application contributes exactly one opening and one
      closing parenthesis, so when leaves show none the display is balanced
      and its parentheses count the applications. */
  lemma {:induction false} DisplayParens(t: S, format: Atom -> string)
    requires PlainLeaves(t, format)
    ensures Count(Display(t, format), '(') == ConsCount(t)
    ensures Count(Display(t, format), ')') == ConsCount(t)
    decreases t, 1
  {
    match t
    case Atom(a) =>
    case Cons(op, xs) =>
      DisplayArgsParens(xs, format);
      CountAppend("(" + OpSymbol(op), DisplayArgs(xs, format), '(');
      CountAppend("(" + OpSymbol(op) + DisplayArgs(xs, format), ")", '(');
      CountAppend("(" + OpSymbol(op), DisplayArgs(xs, format), ')');
      CountAppend("(" + OpSymbol(op) + DisplayArgs(xs, format), ")", ')');
      CountAppend("(", OpSymbol(op), '(');
      CountAppend("(", OpSymbol(op), ')');
      OpSymbolPlain(op);
      assert Count("(", '(') == 1 && Count("(", ')') == 0;
      assert Count(")", '(') == 0 && Count(")", ')') == 1;
  }

  lemma {:induction false} DisplayArgsParens(xs: seq<S>, format: Atom -> string)
    requires PlainLeavesAll(xs, format)
    ensures Count(DisplayArgs(xs, format), '(') == ConsCountAll(xs)
    ensures Count(DisplayArgs(xs, format), ')') == ConsCountAll(xs)
    decreases xs, 0
  {
    if xs != [] {
      DisplayParens(xs[0], format);
      DisplayArgsParens(xs[1..], format);
      CountAppend(" " + Display(xs[0], format), DisplayArgs(xs[1..], format), '(');
      CountAppend(" " + Display(xs[0], format), DisplayArgs(xs[1..], format), ')');
      CountAppend(" ", Display(xs[0], format), '(');
      CountAppend(" ", Display(xs[0], format), ')');
    }
  }

  // ------------------------------------------------------------ token stack

  function Reverse<T>(s: seq<T>): (r: seq<T>)
    ensures |r| == |s|
    ensures forall i :: 0 <= i < |s| ==> r[i] == s[|s| - 1 - i]
  {
    if s == [] then [] else Reverse(s[1..]) + [s[0]]
  }

  /** The token the lexer hands out next: EOF once nothing is left. */
  function PeekOf(ts: seq<Token>): Token {
    if ts == [] then FromTy(EOF) else ts[0]
  }

  function Drop(ts: seq<Token>): seq<Token> {
    if ts == [] then [] else ts[1..]
  }

  /** The parser's token stack (Lexer in src/parser.rs). */
  class Lexer {
    /** The token vector, reversed: the next token is its last element. */
    var tokens: seq<Token>

    /** The tokens still to be read, in reading order. */
    function Remaining(): seq<Token>
      reads this
    {
      Reverse(tokens)
    }

    /** Lexer::new reverses the vector, so the tokens are read in their original order. */
    constructor (ts: seq<Token>)
      ensures Remaining() == ts
    {
      tokens := Reverse(ts);
      assert Reverse(Reverse(ts)) == ts;
    }

    /** Pops the next token, or gives EOF when the stack is empty. */
    method Next() returns (t: Token)
      modifies this
      ensures t == PeekOf(old(Remaining()))
      ensures Remaining() == Drop(old(Remaining()))
      ensures |tokens| == if old(tokens) == [] then 0 else |old(tokens)| - 1
    {
      if tokens == [] {
        t := FromTy(EOF);
      } else {
        t := tokens[|tokens| - 1];
        tokens := tokens[..|tokens| - 1];
        assert Reverse(tokens) == Reverse(old(tokens))[1..];
      }
    }

    /** The next token without consuming it, or EOF. */
    method Peek() returns (t: Token)
      ensures t == PeekOf(Remaining())
    {
      if tokens == [] {
        t := FromTy(EOF);
      } else {
        t := tokens[|tokens| - 1];
      }
    }
  }

  /** Reading a fresh lexer to the end yields the tokens in their original
      order, and then EOF. */
  method ReadAll(ts: seq<Token>) returns (out: seq<Token>, last: Token)
    ensures out == ts
    ensures last == FromTy(EOF)
  {
    var lexer := new Lexer(ts);
    out := [];
    while |lexer.tokens| > 0
      invariant out + lexer.Remaining() == ts
      decreases |lexer.tokens|
    {
      var t := lexer.Next();
      out := out + [t];
    }
    last := lexer.Next();
  }

  // ---------------------------------------------------------------- parsing

  datatype ParseError =
    | InvalidToken(token: Token)   // a (sub)expression does not start with a literal
    | Unimplemented(token: Token)  // the loop peeked a token it has no case for

  /** What the loop of expr_bp makes of the token it peeks at. */
  datatype Lookahead = Stop | Infix(op: Op) | NotAnOperator

  function Classify(ty: TokenType): (r: Lookahead)
    ensures r.Infix? ==> r.op in {Op.Plus, Op.Minus, Op.Multiply, Op.Divide}
  {
    match ty
    case EOF | WhiteSpace | NewLine => Stop
    case Plus => Infix(Op.Plus)
    case Minus => Infix(Op.Minus)
    case Slash => Infix(Op.Divide)
    case Star => Infix(Op.Multiply)
    case _ => NotAnOperator
  }

  /** infix_binding_power: the (left, right) pair of each infix operator. */
  function InfixBindingPower(op: Op): (nat, nat)
    requires op in {Op.Plus, Op.Minus, Op.Multiply, Op.Divide}
  {
    match op
    case Plus | Minus => (1, 2)
    case Multiply | Divide => (3, 4)
  }

  datatype Parsed = Parsed(tree: S, rest: seq<Token>)

  /** expr_bp as a function of the remaining tokens: the tree and the tokens
      left unconsumed. */
  function ParseBp(ts: seq<Token>, bp: nat): (r: Result<Parsed, ParseError>)
    ensures r.Ok? ==> |r.value.rest| < |ts|
    decreases |ts|, 1
  {
    var nx := PeekOf(ts);
    if nx.ty.Literal? then ParseLoop(S.Atom(nx.ty.value), ts[1..], bp)
    else Err(InvalidToken(nx))
  }

  /** The loop of expr_bp with the left-hand side built so far. */
  function ParseLoop(lhs: S, ts: seq<Token>, bp: nat): (r: Result<Parsed, ParseError>)
    ensures r.Ok? ==> |r.value.rest| <= |ts|
    decreases |ts|, 0
  {
    var nx := PeekOf(ts);
    match Classify(nx.ty)
    case Stop => Ok(Parsed(lhs, ts))
    case NotAnOperator => Err(Unimplemented(nx))
    case Infix(op) =>
      var (l, r) := InfixBindingPower(op);
      if l < bp then Ok(Parsed(lhs, ts))
      else
        var rhs :- ParseBp(ts[1..], r);
        ParseLoop(Cons(op, [lhs, rhs.tree]), rhs.rest, bp)
  }

  /** The outcome of ParseBp as the method reports it: the tree or the error. */
  function TreeOf(r: Result<Parsed, ParseError>): Result<S, ParseError> {
    match r
    case Ok(p) => Ok(p.tree)
    case Err(e) => Err(e)
  }

  /** expr_bp: parse an expression whose operators bind at least as tightly
      as bp, leaving the first token that ends it on the stack. */
  method ExprBp(lexer: Lexer, bp: nat) returns (r: Result<S, ParseError>)
    modifies lexer
    ensures r == TreeOf(ParseBp(old(lexer.Remaining()), bp))
    ensures r.Ok? ==> lexer.Remaining() == ParseBp(old(lexer.Remaining()), bp).value.rest
    decreases |lexer.tokens|
  {
    ghost var spec := ParseBp(lexer.Remaining(), bp);
    var nx := lexer.Next();
    if !nx.ty.Literal? {
      return Err(InvalidToken(nx));
    }
    var lhs := S.Atom(nx.ty.value);
    while true
      invariant ParseLoop(lhs, lexer.Remaining(), bp) == spec
      decreases |lexer.tokens|
    {
      var pk := lexer.Peek();
      match Classify(pk.ty)
      case Stop =>
        return Ok(lhs);
      case NotAnOperator =>
        return Err(Unimplemented(pk));
      case Infix(op) =>
        var (l, rbp) := InfixBindingPower(op);
        if l < bp {
          return Ok(lhs);
        }
            var _ := lexer.Next();
        var rhs := ExprBp(lexer, rbp);
        if rhs.Err? {
          return Err(rhs.error);
        }
        lhs := Cons(op, [lhs, rhs.value]);
    }
  }

  /** expr: parse a whole expression. */
  method Expr(lexer: Lexer) returns (r: Result<S, ParseError>)
    modifies lexer
    ensures r == TreeOf(ParseBp(old(lexer.Remaining()), 0))
    ensures r.Ok? ==> lexer.Remaining() == ParseBp(old(lexer.Remaining()), 0).value.rest
  {
    r := ExprBp(lexer, 0);
  }

  // ------------------------------------------------------ parser properties

  /** Every (sub)expression starts with a literal token; any other first
      token, EOF included, is a parse failure naming it. */
  lemma LeadingTokenMustBeLiteral(ts: seq<Token>, bp: nat)
    ensures ParseBp(ts, bp).Ok? ==> ts != [] && ts[0].ty.Literal?
    ensures !PeekOf(ts).ty.Literal? ==> ParseBp(ts, bp) == Err(InvalidToken(PeekOf(ts)))
  {
  }

  /** The loop stops without consuming at EOF, WhiteSpace or NewLine, fails on
      any other token that is not + - * /, and leaves an operator whose left
      binding power is below the minimum for the caller. */
  lemma LoopStops(lhs: S, ts: seq<Token>, bp: nat)
    ensures PeekOf(ts).ty in {EOF, WhiteSpace, NewLine} ==> ParseLoop(lhs, ts, bp) == Ok(Parsed(lhs, ts))
    ensures Classify(PeekOf(ts).ty) == NotAnOperator ==> ParseLoop(lhs, ts, bp) == Err(Unimplemented(PeekOf(ts)))
    ensures Classify(PeekOf(ts).ty).Infix? && InfixBindingPower(Classify(PeekOf(ts).ty).op).0 < bp ==>
              ParseLoop(lhs, ts, bp) == Ok(Parsed(lhs, ts))
  {
  }

  /** Every token kind other than EOF, WhiteSpace, NewLine and + - * / is not an operator. */
  lemma ClassifyCases(ty: TokenType)
    ensures Classify(ty) == Stop <==> ty in {EOF, WhiteSpace, NewLine}
    ensures Classify(ty).Infix? <==> ty in {TokenType.Plus, TokenType.Minus, Star, Slash}
  {
  }

  /** Precedence levels: * and / bind tighter than + and -. */
  function Level(op: Op): nat
    requires op in {Op.Plus, Op.Minus, Op.Multiply, Op.Divide}
  {
    if op in {Op.Plus, Op.Minus} then 1 else 2
  }

  /** Both binding powers order operators by level, and each operator's right
      power exceeds its left one: equal levels associate to the left. */
  lemma BindingPowerOrder(a: Op, b: Op)
    requires a in {Op.Plus, Op.Minus, Op.Multiply, Op.Divide}
    requires b in {Op.Plus, Op.Minus, Op.Multiply, Op.Divide}
    ensures InfixBindingPower(a).0 < InfixBindingPower(a).1
    ensures InfixBindingPower(b).0 < InfixBindingPower(a).1 <==> Level(b) <= Level(a)
    ensures InfixBindingPower(b).0 >= InfixBindingPower(a).1 <==> Level(b) > Level(a)
  {
  }

  predicate IsInfix(op: Op) {
    op in {Op.Plus, Op.Minus, Op.Multiply, Op.Divide}
  }

  /** A tree the parser can build: literal leaves and binary + - * / nodes. */
  predicate Binary(t: S) {
    match t
    case Atom(_) => true
    case Cons(op, xs) => IsInfix(op) && |xs| == 2 && Binary(xs[0]) && Binary(xs[1])
  }

  /** The grouping precedence and left associativity demand: a left operand
      binds at least as tightly as its parent, a right operand strictly tighter. */
  predicate PrecOrdered(t: S)
    requires Binary(t)
  {
    match t
    case Atom(_) => true
    case Cons(op, xs) =>
      PrecOrdered(xs[0]) && PrecOrdered(xs[1]) &&
      (xs[0].Atom? || Level(xs[0].op) >= Level(op)) &&
      (xs[1].Atom? || Level(xs[1].op) > Level(op))
  }

  /** The root operator, if any, has left binding power at least bp. */
  predicate RootAtLeast(t: S, bp: nat)
    requires Binary(t)
  {
    t.Atom? || InfixBindingPower(t.op).0 >= bp
  }

  /** The parse of a minimum binding power bp may end before ts. */
  predicate EndsBefore(ts: seq<Token>, bp: nat) {
    match Classify(PeekOf(ts).ty)
    case Stop => true
    case Infix(o) => InfixBindingPower(o).0 < bp
    case NotAnOperator => false
  }

  /** If the loop takes the next operator, lhs may become its left operand. */
  predicate MayAbsorbNext(lhs: S, ts: seq<Token>, bp: nat)
    requires Binary(lhs)
  {
    match Classify(PeekOf(ts).ty)
    case Infix(o) => InfixBindingPower(o).0 >= bp ==> lhs.Atom? || Level(lhs.op) >= Level(o)
    case _ => true
  }

  /** What the loop keeps of its left-hand side before reading ts. */
  predicate LoopReady(lhs: S, ts: seq<Token>, bp: nat) {
    Binary(lhs) && PrecOrdered(lhs) && RootAtLeast(lhs, bp) && MayAbsorbNext(lhs, ts, bp)
  }

  /** What a token stands for in an expression. */
  datatype Sym = LitSym(a: Atom) | OpSym(op: Op) | OtherSym

  function SymOf(t: Token): Sym {
    if t.ty.Literal? then LitSym(t.ty.value)
    else match Classify(t.ty)
      case Infix(op) => OpSym(op)
      case _ => OtherSym
  }

  function Syms(ts: seq<Token>): (r: seq<Sym>)
    ensures |r| == |ts|
  {
    seq(|ts|, i requires 0 <= i < |ts| => SymOf(ts[i]))
  }

  /** The leaves and operators of a binary tree from left to right. */
  function InOrder(t: S): seq<Sym>
    requires Binary(t)
  {
    match t
    case Atom(a) => [LitSym(a)]
    case Cons(op, xs) => InOrder(xs[0]) + [OpSym(op)] + InOrder(xs[1])
  }

  /** The tokens parsed and the tokens left, when rest is a suffix of ts. */
  function Consumed(ts: seq<Token>, rest: seq<Token>): seq<Token>
    requires |rest| <= |ts|
  {
    ts[..|ts| - |rest|]
  }

  /** What holds of a parse of ts with minimum binding power bp that left rest. */
  predicate WellShaped(ts: seq<Token>, bp: nat, p: Parsed) {
    Binary(p.tree) && PrecOrdered(p.tree) && RootAtLeast(p.tree, bp) &&
    EndsBefore(p.rest, bp) && |p.rest| <= |ts| && p.rest == ts[|ts| - |p.rest|..]
  }

  /** The parser's output characterised: a binary tree ordered by precedence
      and associativity whose in-order reading is exactly the tokens it
      consumed; the rest is a suffix that ends an expression of power bp. */
  lemma {:induction false} ParseBpShape(ts: seq<Token>, bp: nat)
    ensures ParseBp(ts, bp).Ok? ==>
              WellShaped(ts, bp, ParseBp(ts, bp).value) &&
              Syms(Consumed(ts, ParseBp(ts, bp).value.rest)) == InOrder(ParseBp(ts, bp).value.tree)
    decreases |ts|, 2
  {
    if ParseBp(ts, bp).Ok? {
      assert ts != [] && PeekOf(ts) == ts[0] && ts[0].ty.Literal?;
      var lhs := S.Atom(ts[0].ty.value);
      assert ParseBp(ts, bp) == ParseLoop(lhs, ts[1..], bp);
      assert LoopReady(lhs, ts[1..], bp);
      ParseLoopShape(lhs, ts[1..], bp);
      var p := ParseBp(ts, bp).value;
      LeafFirst(ts, p.rest, [LitSym(ts[0].ty.value)], InOrder(p.tree));
    }
  }

  /** The tokens of a parse: its leading literal, then what the loop consumed. */
  lemma LeafFirst(ts: seq<Token>, rest: seq<Token>, L: seq<Sym>, T: seq<Sym>)
    requires ts != [] && Syms([ts[0]]) == L
    requires |rest| <= |ts| - 1 && rest == ts[1..][|ts| - 1 - |rest|..]
    requires L + Syms(Consumed(ts[1..], rest)) == T
    ensures rest == ts[|ts| - |rest|..]
    ensures Syms(Consumed(ts, rest)) == T
  {
    assert Consumed(ts, rest) == [ts[0]] + Consumed(ts[1..], rest);
    SymsAppend([ts[0]], Consumed(ts[1..], rest));
  }

  lemma {:induction false} ParseLoopShape(lhs: S, ts: seq<Token>, bp: nat)
    requires LoopReady(lhs, ts, bp)
    ensures ParseLoop(lhs, ts, bp).Ok? ==>
              WellShaped(ts, bp, ParseLoop(lhs, ts, bp).value) &&
              InOrder(lhs) + Syms(Consumed(ts, ParseLoop(lhs, ts, bp).value.rest)) == InOrder(ParseLoop(lhs, ts, bp).value.tree)
    decreases |ts|, 1
  {
    match Classify(PeekOf(ts).ty)
    case Stop =>
      assert Consumed(ts, ts) == [];
    case NotAnOperator =>
    case Infix(op) =>
      if InfixBindingPower(op).0 < bp {
        assert Consumed(ts, ts) == [];
      } else {
        LoopStep(lhs, ts, bp, op);
      }
  }

  /** The loop taking operator op and its right operand. */
  lemma {:induction false} LoopStep(lhs: S, ts: seq<Token>, bp: nat, op: Op)
    requires LoopReady(lhs, ts, bp)
    requires Classify(PeekOf(ts).ty) == Infix(op) && InfixBindingPower(op).0 >= bp
    ensures ParseLoop(lhs, ts, bp).Ok? ==>
              WellShaped(ts, bp, ParseLoop(lhs, ts, bp).value) &&
              InOrder(lhs) + Syms(Consumed(ts, ParseLoop(lhs, ts, bp).value.rest)) == InOrder(ParseLoop(lhs, ts, bp).value.tree)
    decreases |ts|, 0
  {
    var r := InfixBindingPower(op).1;
    if ParseBp(ts[1..], r).Ok? {
      ParseBpShape(ts[1..], r);
      var rhs := ParseBp(ts[1..], r).value;
      var lhs' := Cons(op, [lhs, rhs.tree]);
      assert ts != [] && PeekOf(ts) == ts[0];
      LoopContinues(lhs, ts, bp, op, rhs);
      LoopStaysReady(lhs, ts, bp, op, rhs);
      OperatorConsumed(ts, op, rhs);
      ParseLoopShape(lhs', rhs.rest, bp);
      if ParseLoop(lhs', rhs.rest, bp).Ok? {
        Assemble(ts, bp, lhs, op, rhs, ParseLoop(lhs', rhs.rest, bp).value);
      }
    } else {
      assert ParseLoop(lhs, ts, bp).Err?;
    }
  }

  /** The loop taking operator op at the head of ts continues from its right operand rhs. */
  lemma LoopContinues(lhs: S, ts: seq<Token>, bp: nat, op: Op, rhs: Parsed)
    requires ts != [] && Classify(ts[0].ty) == Infix(op) && InfixBindingPower(op).0 >= bp
    requires ParseBp(ts[1..], InfixBindingPower(op).1) == Ok(rhs)
    ensures ParseLoop(lhs, ts, bp) == ParseLoop(Cons(op, [lhs, rhs.tree]), rhs.rest, bp)
  {
  }

  /** The new left-hand side is again ready for the loop. */
  lemma LoopStaysReady(lhs: S, ts: seq<Token>, bp: nat, op: Op, rhs: Parsed)
    requires ts != [] && Classify(ts[0].ty) == Infix(op) && InfixBindingPower(op).0 >= bp
    requires LoopReady(lhs, ts, bp)
    requires WellShaped(ts[1..], InfixBindingPower(op).1, rhs)
    ensures LoopReady(Cons(op, [lhs, rhs.tree]), rhs.rest, bp)
  {
    Combine(lhs, op, rhs.tree, rhs.rest, bp);
  }

  /** The operator token stands for op, and the right operand leaves a suffix of what follows it. */
  lemma OperatorConsumed(ts: seq<Token>, op: Op, rhs: Parsed)
    requires ts != [] && Classify(ts[0].ty) == Infix(op)
    requires WellShaped(ts[1..], InfixBindingPower(op).1, rhs)
    ensures IsInfix(op) && SymOf(ts[0]) == OpSym(op)
    ensures |rhs.rest| <= |ts| - 1 && rhs.rest == ts[1..][|ts| - 1 - |rhs.rest|..]
  {
  }

  /** The tokens of one loop step, the operator, its right operand and the
      rest of the loop, read in order. */
  lemma Assemble(ts: seq<Token>, bp: nat, lhs: S, op: Op, rhs: Parsed, p: Parsed)
    requires ts != [] && SymOf(ts[0]) == OpSym(op) && IsInfix(op)
    requires Binary(lhs) && Binary(rhs.tree)
    requires |rhs.rest| <= |ts| - 1 && rhs.rest == ts[1..][|ts| - 1 - |rhs.rest|..]
    requires Syms(Consumed(ts[1..], rhs.rest)) == InOrder(rhs.tree)
    requires WellShaped(rhs.rest, bp, p)
    requires InOrder(Cons(op, [lhs, rhs.tree])) + Syms(Consumed(rhs.rest, p.rest)) == InOrder(p.tree)
    ensures WellShaped(ts, bp, p)
    ensures InOrder(lhs) + Syms(Consumed(ts, p.rest)) == InOrder(p.tree)
  {
    ConsumedSplit(ts, rhs.rest, p.rest);
    AssembleOrder(ts, op, rhs.rest, p.rest, InOrder(lhs), InOrder(rhs.tree), InOrder(p.tree));
  }

  /** The in-order reading of one loop step, over the readings themselves. */
  lemma AssembleOrder(ts: seq<Token>, op: Op, mid: seq<Token>, rest: seq<Token>, L: seq<Sym>, R: seq<Sym>, T: seq<Sym>)
    requires ts != [] && SymOf(ts[0]) == OpSym(op)
    requires |mid| <= |ts| - 1 && |rest| <= |mid|
    requires Consumed(ts, rest) == [ts[0]] + Consumed(ts[1..], mid) + Consumed(mid, rest)
    requires Syms(Consumed(ts[1..], mid)) == R
    requires L + [OpSym(op)] + R + Syms(Consumed(mid, rest)) == T
    ensures L + Syms(Consumed(ts, rest)) == T
  {
    var c1 := Consumed(ts[1..], mid);
    var c2 := Consumed(mid, rest);
    SymsAppend([ts[0]] + c1, c2);
    SymsAppend([ts[0]], c1);
    assert Syms([ts[0]]) == [OpSym(op)];
    assert Syms(Consumed(ts, rest)) == [OpSym(op)] + R + Syms(c2);
    assert L + ([OpSym(op)] + R + Syms(c2)) == L + [OpSym(op)] + R + Syms(c2);
  }

  /** Taking an operator keeps the loop's invariant for the new left operand. */
  lemma Combine(lhs: S, op: Op, rhs: S, rest: seq<Token>, bp: nat)
    requires IsInfix(op) && InfixBindingPower(op).0 >= bp
    requires Binary(lhs) && PrecOrdered(lhs) && (lhs.Atom? || Level(lhs.op) >= Level(op))
    requires Binary(rhs) && PrecOrdered(rhs) && RootAtLeast(rhs, InfixBindingPower(op).1)
    requires EndsBefore(rest, InfixBindingPower(op).1)
    ensures var t := Cons(op, [lhs, rhs]);
            LoopReady(t, rest, bp)
  {
    if !rhs.Atom? {
      BindingPowerOrder(op, rhs.op);
    }
    match Classify(PeekOf(rest).ty)
    case Infix(o) => BindingPowerOrder(op, o);
    case _ =>
  }

  lemma SymsAppend(a: seq<Token>, b: seq<Token>)
    ensures Syms(a + b) == Syms(a) + Syms(b)
  {
  }

  lemma ConsumedSplit(ts: seq<Token>, mid: seq<Token>, rest: seq<Token>)
    requires ts != [] && |mid| <= |ts| - 1 && mid == ts[1..][|ts| - 1 - |mid|..]
    requires |rest| <= |mid| && rest == mid[|mid| - |rest|..]
    ensures rest == ts[|ts| - |rest|..]
    ensures Consumed(ts, rest) == [ts[0]] + Consumed(ts[1..], mid) + Consumed(mid, rest)
  {
  }

  /** One more literal leaf than operators. */
  function Leaves(t: S): nat
    requires Binary(t)
  {
    match t
    case Atom(_) => 1
    case Cons(_, xs) => Leaves(xs[0]) + Leaves(xs[1])
  }

  function Operators(t: S): nat
    requires Binary(t)
  {
    match t
    case Atom(_) => 0
    case Cons(_, xs) => 1 + Operators(xs[0]) + Operators(xs[1])
  }

  lemma {:induction false} LeavesExceedOperators(t: S)
    requires Binary(t)
    ensures Leaves(t) == Operators(t) + 1
    ensures |InOrder(t)| == Leaves(t) + Operators(t)
  {
    match t
    case Atom(_) =>
    case Cons(_, xs) =>
      LeavesExceedOperators(xs[0]);
      LeavesExceedOperators(xs[1]);
  }

  /** A successful parse consumed an odd number of tokens: one more literal than operators. */
  lemma ParseTokenCount(ts: seq<Token>, bp: nat)
    requires ParseBp(ts, bp).Ok?
    ensures var p := ParseBp(ts, bp).value;
            Binary(p.tree) && |ts| - |p.rest| == 2 * Operators(p.tree) + 1
  {
    ParseBpShape(ts, bp);
    LeavesExceedOperators(ParseBp(ts, bp).value.tree);
  }

  /** The token of a number literal. */
  function NumTok(n: real): Token {
    FromTy(Literal(Num(n)))
  }

  function OpTok(op: Op): Token
    requires IsInfix(op)
  {
    FromTy(match op
      case Plus => TokenType.Plus
      case Minus => TokenType.Minus
      case Multiply => Star
      case _ => Slash)
  }

  lemma OpTokClassified(op: Op)
    requires IsInfix(op)
    ensures Classify(OpTok(op).ty) == Infix(op)
  {
  }

  /** A number token starts the loop with that number as its left-hand side. */
  lemma NumberStarts(n: real, rest: seq<Token>, bp: nat)
    ensures ParseBp([NumTok(n)] + rest, bp) == ParseLoop(S.Atom(Num(n)), rest, bp)
  {
    assert ([NumTok(n)] + rest)[1..] == rest;
  }

  /** With the tokens used up the loop returns what it has built. */
  lemma LoopAtEnd(lhs: S, bp: nat)
    ensures ParseLoop(lhs, [], bp) == Ok(Parsed(lhs, []))
  {
    assert PeekOf([]).ty == EOF;
    assert Classify(EOF) == Stop;
  }

  /** An operator binding less tightly than the minimum is left for the caller. */
  lemma LoopYields(lhs: S, op: Op, rest: seq<Token>, bp: nat)
    requires IsInfix(op) && InfixBindingPower(op).0 < bp
    ensures ParseLoop(lhs, [OpTok(op)] + rest, bp) == Ok(Parsed(lhs, [OpTok(op)] + rest))
  {
    OpTokClassified(op);
  }

  /** An operator binding tightly enough takes the parse of what follows as its right operand. */
  lemma LoopTakes(lhs: S, op: Op, rest: seq<Token>, bp: nat, rhs: Parsed)
    requires IsInfix(op) && bp <= InfixBindingPower(op).0
    requires ParseBp(rest, InfixBindingPower(op).1) == Ok(rhs)
    ensures ParseLoop(lhs, [OpTok(op)] + rest, bp) == ParseLoop(Cons(op, [lhs, rhs.tree]), rhs.rest, bp)
  {
    OpTokClassified(op);
    assert ([OpTok(op)] + rest)[1..] == rest;
  }

  /** a lo b hi c groups the tighter operator first, whichever operators are chosen. */
  lemma Precedence(a: real, lo: Op, b: real, hi: Op, c: real)
    requires IsInfix(lo) && IsInfix(hi) && Level(lo) < Level(hi)
    ensures ParseBp([NumTok(a), OpTok(lo), NumTok(b), OpTok(hi), NumTok(c)], 0)
            == Ok(Parsed(Cons(lo, [S.Atom(Num(a)), Cons(hi, [S.Atom(Num(b)), S.Atom(Num(c))])]), []))
  {
    BindingPowerOrder(lo, hi);
    var (A, B, C) := (S.Atom(Num(a)), S.Atom(Num(b)), S.Atom(Num(c)));
    var rl := InfixBindingPower(lo).1;
    var rh := InfixBindingPower(hi).1;
    NumberStarts(c, [], rh);
    LoopAtEnd(C, rh);
    assert [NumTok(c)] + [] == [NumTok(c)];
    LoopTakes(B, hi, [NumTok(c)], rl, Parsed(C, []));
    LoopAtEnd(Cons(hi, [B, C]), rl);
    NumberStarts(b, [OpTok(hi), NumTok(c)], rl);
    assert [OpTok(hi)] + [NumTok(c)] == [OpTok(hi), NumTok(c)];
    assert [NumTok(b)] + [OpTok(hi), NumTok(c)] == [NumTok(b), OpTok(hi), NumTok(c)];
    var bc := Cons(hi, [B, C]);
    LoopTakes(A, lo, [NumTok(b), OpTok(hi), NumTok(c)], 0, Parsed(bc, []));
    LoopAtEnd(Cons(lo, [A, bc]), 0);
    NumberStarts(a, [OpTok(lo), NumTok(b), OpTok(hi), NumTok(c)], 0);
    assert [OpTok(lo)] + [NumTok(b), OpTok(hi), NumTok(c)] == [OpTok(lo), NumTok(b), OpTok(hi), NumTok(c)];
    assert [NumTok(a)] + [OpTok(lo), NumTok(b), OpTok(hi), NumTok(c)] == [NumTok(a), OpTok(lo), NumTok(b), OpTok(hi), NumTok(c)];
  }

  /** ... and a hi b lo c likewise. */
  lemma PrecedenceLeft(a: real, hi: Op, b: real, lo: Op, c: real)
    requires IsInfix(lo) && IsInfix(hi) && Level(lo) < Level(hi)
    ensures ParseBp([NumTok(a), OpTok(hi), NumTok(b), OpTok(lo), NumTok(c)], 0)
            == Ok(Parsed(Cons(lo, [Cons(hi, [S.Atom(Num(a)), S.Atom(Num(b))]), S.Atom(Num(c))]), []))
  {
    BindingPowerOrder(hi, lo);
    ThreeTerms(a, hi, b, lo, c);
  }

  /** Operators of one level associate to the left. */
  lemma LeftAssociative(a: real, o1: Op, b: real, o2: Op, c: real)
    requires IsInfix(o1) && IsInfix(o2) && Level(o1) == Level(o2)
    ensures ParseBp([NumTok(a), OpTok(o1), NumTok(b), OpTok(o2), NumTok(c)], 0)
            == Ok(Parsed(Cons(o2, [Cons(o1, [S.Atom(Num(a)), S.Atom(Num(b))]), S.Atom(Num(c))]), []))
  {
    BindingPowerOrder(o1, o2);
    ThreeTerms(a, o1, b, o2, c);
  }

  /** a o1 b o2 c groups to the left when o2 does not bind tighter than o1's right side. */
  lemma ThreeTerms(a: real, o1: Op, b: real, o2: Op, c: real)
    requires IsInfix(o1) && IsInfix(o2)
    requires InfixBindingPower(o2).0 < InfixBindingPower(o1).1
    ensures ParseBp([NumTok(a), OpTok(o1), NumTok(b), OpTok(o2), NumTok(c)], 0)
            == Ok(Parsed(Cons(o2, [Cons(o1, [S.Atom(Num(a)), S.Atom(Num(b))]), S.Atom(Num(c))]), []))
  {
    var (A, B, C) := (S.Atom(Num(a)), S.Atom(Num(b)), S.Atom(Num(c)));
    var r1 := InfixBindingPower(o1).1;
    var r2 := InfixBindingPower(o2).1;
    LoopYields(B, o2, [NumTok(c)], r1);
    assert [OpTok(o2)] + [NumTok(c)] == [OpTok(o2), NumTok(c)];
    NumberStarts(b, [OpTok(o2), NumTok(c)], r1);
    assert [NumTok(b)] + [OpTok(o2), NumTok(c)] == [NumTok(b), OpTok(o2), NumTok(c)];
    var tail := [OpTok(o2), NumTok(c)];
    LoopTakes(A, o1, [NumTok(b)] + tail, 0, Parsed(B, tail));
    var ab := Cons(o1, [A, B]);
    NumberStarts(c, [], r2);
    LoopAtEnd(C, r2);
    assert [NumTok(c)] + [] == [NumTok(c)];
    LoopTakes(ab, o2, [NumTok(c)], 0, Parsed(C, []));
    LoopAtEnd(Cons(o2, [ab, C]), 0);
    NumberStarts(a, [OpTok(o1), NumTok(b), OpTok(o2), NumTok(c)], 0);
    assert [OpTok(o1)] + [NumTok(b), OpTok(o2), NumTok(c)] == [OpTok(o1), NumTok(b), OpTok(o2), NumTok(c)];
    assert [NumTok(a)] + [OpTok(o1), NumTok(b), OpTok(o2), NumTok(c)] == [NumTok(a), OpTok(o1), NumTok(b), OpTok(o2), NumTok(c)];
  }

  /** The display of the parse of 3 + 5 * 4 (numbers shown by format). */
  lemma DisplayExample(format: Atom -> string)
    requires format(Num(3.0)) == "3" && format(Num(5.0)) == "5" && format(Num(4.0)) == "4"
    ensures Display(Cons(Op.Plus, [S.Atom(Num(3.0)), Cons(Multiply, [S.Atom(Num(5.0)), S.Atom(Num(4.0))])]), format)
            == "(+ 3 (* 5 4))"
  {
    var (three, five, four) := (S.Atom(Num(3.0)), S.Atom(Num(5.0)), S.Atom(Num(4.0)));
    DisplayBinary(Multiply, five, four, format);
    var prod := Cons(Multiply, [five, four]);
    assert Display(prod, format) == "(* 5 4)";
    DisplayBinary(Op.Plus, three, prod, format);
  }

  /** A binary node displays as its operator and its two operands, spaced, in parentheses. */
  lemma DisplayBinary(op: Op, x: S, y: S, format: Atom -> string)
    ensures Display(Cons(op, [x, y]), format) == "(" + OpSymbol(op) + " " + Display(x, format) + " " + Display(y, format) + ")"
  {
    assert [x, y][1..] == [y];
    assert [y][1..] == [];
    assert DisplayArgs([y], format) == " " + Display(y, format) + DisplayArgs([], format);
    assert DisplayArgs([y], format) == " " + Display(y, format);
    assert DisplayArgs([x, y], format) == " " + Display(x, format) + DisplayArgs([y], format);
  }
}
